# Consensus, locks and queues: a verified model

This project models the parts of the distributed synchronisation system in which correctness is subtle, and proves
what they keep over every run:

- **Raft** (`src/consensus/raft.py`): elections, voting, log replication with conflict truncation, commitment, client
  appends and the apply loop, for any number of nodes.
- **The replicated lock manager** (`src/nodes/lock_manager.py`): shared and exclusive locks, the rescan of the waiting
  queue on release, the wait-for graph and its cycle finder, as a state machine fed by the Raft log.
- **The queue** (`src/nodes/queue_node.py`): the consistent-hash ring, and the life of a message between pending,
  in flight, completed and failed.

Each part is written three times over. Classes with the original's fields (`RaftNode`, `LockManager`, `LockState`,
`CycleFinder`, `ConsistentHashRing`, `QueueNode`) have one method for each handler or loop, updating the fields in
place. Each method is proved to compute a pure step function (`RaftSpec`, `LockTables`, `HashRings`, `QueueSpec`).
The theorems are about runs of those step functions.

## How to read it

| files | what they hold |
|---|---|
| `RaftSpec`, `RaftNode` | the node as a value and as an object |
| `RaftEffects` | what each handler does, in terms of the state it finds |
| `RaftCluster` | nodes, the network as a set of messages that only grows, steps and runs |
| `RaftInvariant` | the inductive invariant, clause by clause, and the history it speaks of |
| `RaftStability`, `RaftSteps`, `RaftElection`, `RaftReplication`, `RaftLeader`, `RaftRuns` | every step keeps the invariant |
| `RaftSafety` | the theorems about Raft, over plain runs |
| `RaftFutures`, `RaftCatchUp`, `RaftProgress` | no reachable state is stuck: a majority that is heard can still elect a leader and commit |
| `LockTable`, `LockManager`, `LockSafety`, `Graphs`, `CycleFinder` | the lock table, its manager, and the cycle finder |
| `LockEffects` | what acquire and release do, and how long a lock is held |
| `DeadlockReports` | which deadlocks the detector can see |
| `ReplicatedLocks`, `ApplyBatch` | the lock table on top of Raft, with the apply loop as intended and as written |
| `HashRing`, `ConsistentHash`, `RingSafety` | the ring |
| `QueueSpec`, `QueueNode`, `QueueEffects`, `QueueSafety`, `QueueRuns` | the message life cycle |
| `Wrappers`, `LockCommands`, `Quorums`, `Sequences` | what the others share |

`dafny verify dfyconfig.toml` checks everything.

## Modelling decisions

**Steps and messages.** A step is the code between two awaits. A message, once sent, stays in the network set, and any
step may use it at any later time or never: that covers loss, delay, duplication and reordering. An answer is a message
that carries the request it answers, because HTTP pairs the two. Timeouts may fire at any time. The votes of an
election may be collected more than once and from any subset of the answers, and an apply pass may run at any time; the
code does less than that, so every theorem covers it.

**Replies to old requests.** `_replicate_to_peer` does not check that a reply belongs to the current term
(`src/consensus/raft.py:270-282`). It need not: `_step_down` is the only way out of being leader, and it cancels the
heartbeat task and with it every request still awaiting its answer (`src/consensus/raft.py:217-219`). The step
`ReceiveReply` is therefore enabled only while the node still leads the term in which it asked. `SendAppend` is
enabled for leaders only. Its index guard, like that of `Apply`, bars nothing: `RaftSafety.IndicesInRange`.

**History.** The invariant speaks of values that the protocol never reads, such as the log of each term's leader and
what each node acknowledged in each term. They are computed from the steps, restrict no run and appear in no statement of
`RaftSafety`.

**The apply loop.** The loop moves `last_applied` up for each entry but calls the callback once, after the loop
(`src/consensus/raft.py:315-319`), although every committed entry is meant to be applied
(`docs/architecture.md:64-69` and `88-89`). The step of the model follows the code: `RaftSpec.ApplyPass`, which also lists
what the callback is given. What the intended loop gives it is `ReplicatedLocks.Handed`: at every pass of the run, all the
entries the pass moves past, taken from the log as it is at that moment; `ReplicatedLocks.TableAt` is the lock table that
results. The code gives the callback the same entries if and only if every pass finds exactly one new entry
(`ReplicatedLocks.DeliversPrefixIff`), and `ApplyBatch` has a run of one node in which a lock command is lost.

**The release scan.** After granting an exclusive request the scan breaks and then stores only the requests it had
already passed (`src/nodes/lock_manager.py:183` and `189`), so those behind are dropped. `LockTables.Scan` is the scan
as written, and all theorems about runs of the lock table use it. `LockTables.ScanKeepingTail` is the scan that keeps
the rest of the queue. The second conserves requests always, the first if and only if it does not grant a writer that
others wait behind.

**The wait-for graph.** Every edge is real, but not every edge that should be there is. Edges are lost in four ways: a
release drops all edges from the client, though it may wait elsewhere (`src/nodes/lock_manager.py:174`), and all edges to
it, though it may still hold what others wait for (`175-176`); a client let in while others stay queued, by a release
(`184-185`) or past queued writers (`152-153`), gets no edges from them; and an exclusive holder whose name is empty gets
none (`161`). `DeadlockReports.CommandKeepsCompleteIff` says exactly which commands do this, `CompleteReportsDeadlocks`
what a complete graph is good for, and `UnreportedDeadlock` is a run of six commands into a deadlock that is not reported.

**Futures.** Committing at index n resolves only the call waiting at exactly n, even when the commit index jumps over
others (`src/consensus/raft.py:301-302`); the model does the same, and a call that is not resolved may give up.
`RaftSafety.CommitAnswersAllIff` says exactly when that leaves a call unanswered.

**Redis.** Each queue operation is one atomic step on shared maps and lists. Redis's answers to the redelivery loop are
parameters: the queues that have ids in flight, and the expired ids of each, in any order. The queue's name is taken
back from the key by splitting at colons, as the code does. Runs may use any queue names; in a queue with a colon in its
name messages are never recovered (`QueueSafety.RecoveredIff`, `QueueRuns.ColonQueueStuck`), and a sweep can end early
there (`QueueRuns.SweepEndsIff`). Message ids are new at every call of `produce`, as UUIDs are, but the fallback of
`produce` can store one message twice; `QueueRuns.ProduceKeepsIff` says exactly when.

**Assumptions.** Every node lists every other node once as a peer. MD5 is an arbitrary function; where collisions
matter, the theorems either assume that none happen among the labels in use (`RingSafety.RoutingAgrees`) or say exactly
what happens with them (`RingSafety.AddHealthyIff`, `RemoveAfterAddIff`, `OrderIrrelevantIff`).

## Model

| member | source | states |
|---|---|---|
| RaftSafety.ElectionSafety | src/consensus/raft.py:177-192 | At most one node ever leads a term, whichever two moments of a run one compares (section 5.2 of the Raft paper). |
| RaftElection.NoOtherWinner | src/consensus/raft.py:190-192 | A candidate with a quorum of votes wins a term that has had no leader and in which nobody acknowledged anything. |
| RaftElection.GrantKeeps | src/consensus/raft.py:338-352 | Granting a vote under the code's three conditions keeps the whole invariant; in particular one vote a term, and only for candidates that hold all that may be chosen. |
| RaftElection.NewerLogComplete | src/consensus/raft.py:341-343 | The up-to-date check: a log at least as new as one that holds everything possibly chosen holds it too. |
| RaftElection.VotersMayAck | src/consensus/raft.py:188-192 | A winner's log holds every older entry that some quorum acknowledged or still could. |
| RaftSafety.LeaderAppendOnly | src/consensus/raft.py:417-422 | While it leads a term a node only appends to its log, whatever it receives. |
| RaftSafety.LogMatching | src/consensus/raft.py:375-392 | Two logs, at any two moments, with entries of one term at one index are equal up to it, and an entry's index is its position. |
| RaftReplication.MergeEffect | src/consensus/raft.py:383-392 | After the append loop the log holds the leader's log up to the request's end; if it changed at all it is a prefix of the leader's. |
| RaftReplication.AppendKeepsShared | src/consensus/raft.py:375-392 | Neither truncation cuts anything the follower's log shares with the leader's. |
| RaftReplication.ReceiverCommit | src/consensus/raft.py:379-397 | An append request cuts no committed entry, and moves the commit index to the larger of its own and the leader's when it succeeds. |
| RaftReplication.CommittedInLead | src/consensus/raft.py:284-304 | What any node has committed by a term is in the log of that term's leader. |
| RaftLeader.QuorateChosen | src/consensus/raft.py:290-296 | A majority of match indices, with the leader, is a quorum of nodes that acknowledged the entry. |
| RaftLeader.LaterTermSettled | src/consensus/raft.py:335-345 | Once a later leader is elected, an entry that only its own leader acknowledged can gain no quorum. |
| RaftRuns.StepKeeps | src/consensus/raft.py:145-426 | Every step of every node keeps the invariant and only adds to history. |
| RaftRuns.RunHistories | src/consensus/raft.py:82-98 | Every state of every run from the initial fields satisfies the invariant. |
| RaftSafety.StateMachineSafety | src/consensus/raft.py:284-304 | Whatever two nodes have both committed, at whatever times, is the same prefix (section 5.4.3 of the Raft paper). |
| RaftSafety.LeaderCompleteness | src/consensus/raft.py:338-345 | An entry of its own term that a majority acknowledged to a leader is in the log of every leader of every later term, even one elected before the leader noticed. |
| RaftSafety.AnsweredCompleteness | src/consensus/raft.py:276-278 | The leader need not have counted them, or still lead: once successful answers from the rest of a quorum have been sent, the entry is in the log of every later leader, whenever that leader took office. |
| RaftSafety.CommittedCompleteness | src/consensus/raft.py:290-304 | Whatever any node has committed is in the log of every leader of a later term, and of its own term from then on. |
| RaftSafety.CommittedNeverCut | src/consensus/raft.py:379-397 | A node's commit index never falls, stays inside its log, and the committed entries never change. |
| RaftSafety.CommitAnswersAllIff | src/consensus/raft.py:300-303 | Every call whose entry a commit has just reached is answered if and only if none waits strictly between the old commit index and the new one. |
| RaftSafety.CommitShortcutExact | src/consensus/raft.py:395-397 | For every request ever sent, taking the end of the whole log as the bound gives the commit index that the end of the verified entries would (section 5.3 of the Raft paper). |
| RaftSafety.MatchIndexTruthful | src/consensus/raft.py:276-282 | While a node leads, a peer in its term holds the leader's entries up to its match index, then and later, whatever old requests arrive. |
| RaftSafety.AnswerHolds | src/consensus/raft.py:364-400 | The sender of a successful answer holds the leader's entries up to where the request ended, as long as it stays in that term. |
| RaftSafety.AnswersTruthful | src/consensus/raft.py:300-302 | A "committed at n" reply goes to the call that appended entry n itself, and no node ever commits another entry there. |
| RaftSafety.IndicesInRange | src/consensus/raft.py:249-252 | No leader and no apply pass ever indexes outside the log. |
| RaftProgress.MajorityCanCommit | src/consensus/raft.py:145-426 | After any run and for any majority, the run can go on so that a member of it leads, takes any given command, commits it and answers the call, and every member holds, has committed and has applied the leader's log and names that leader. |
| RaftProgress.AnsweredCanCommit | src/consensus/raft.py:270-303 | After any run, a leader to which the rest of a quorum has sent answers covering an entry of its term can commit that entry with nothing more sent, appended or acknowledged, however long its log has become. |
| RaftProgress.AllVote | src/consensus/raft.py:335-352 | Every node that is behind a candidate's term, or in it with its vote to give, and whose log is no newer, can be brought to grant the vote. |
| RaftCatchUps.ExchangeEffect | src/consensus/raft.py:254-282 | One exchange: success takes both indices of the peer to the end of the leader's log and has the peer commit as far as the leader has; a refusal takes the next index one back; either way the peer learns who leads. |
| RaftCatchUps.CatchesUp | src/consensus/raft.py:276-282 | However far a peer has fallen behind or diverged, an undisturbed exchange ends with its match index at the end of the leader's log and its commit index at least the leader's. |
| RaftCatchUps.Commits | src/consensus/raft.py:284-304 | A leader that a majority can follow commits a client's next command, the call is answered, and the majority commits and applies it too. |
| RaftProgress.Wins | src/consensus/raft.py:145-204 | A node whose log is at least as new as a majority's can win an election, whatever terms and votes they hold. |
| RaftProgress.StepsAside | src/consensus/raft.py:271-273 | A leader that a peer has left behind learns the newer term from the next answer and steps down. |
| RaftSafety.NamedLeaderLed | src/consensus/raft.py:364-369 | A node that leads names itself, and whomever a node names to a client it turns away has led, in the node's term or an earlier one. |
| RaftSafety.SentByLeader | src/consensus/raft.py:249-265 | Every append request in the network was sent by a node that led its term then. |
| RaftEffects.VoteOutcome | src/consensus/raft.py:335-352 | Exactly when a vote is granted, in terms of the state before a newer term is taken over, and all that changes. |
| RaftEffects.NewerResponseStepsDown | src/consensus/raft.py:184-186 | A candidate with a newer response among its votes steps down to the term of one. |
| RaftEffects.MajorityTakesOffice | src/consensus/raft.py:187-204 | Without one it takes office exactly when more than half of all nodes granted, with every peer's indices reset. |
| RaftEffects.RequestContinues | src/consensus/raft.py:249-264 | What a request carries, put behind the leader's log up to its previous index, is the leader's log, and it tells the leader's commit index. |
| RaftEffects.RequestOutcome | src/consensus/raft.py:364-400 | An append request that is not old is accepted exactly when its previous entry is there; what is taken over, cut and committed either way. |
| RaftEffects.MergeKeepsLonger | src/consensus/raft.py:384-392 | A log that holds all the entries of a request is left alone, even where it goes on beyond them. |
| RaftEffects.MergeReplacesFrom | src/consensus/raft.py:384-392 | Otherwise everything from the first missing or conflicting entry on is replaced. |
| RaftEffects.ReplyOutcome | src/consensus/raft.py:270-282 | A newer term ends the reign; success and refusal move the two indices of that peer, to where exactly, and no others. |
| RaftEffects.CommitReachesMajority | src/consensus/raft.py:288-303 | The new commit index is at least every index of the leader's term that more than half hold, wherever in the log it is, and is the old one or such an index. |
| RaftEffects.CommandOutcome | src/consensus/raft.py:413-426 | A leader appends the command and the call waits for that entry; any other node changes nothing and names the leader it knows. |
| RaftEffects.GiveUpOutcome | src/consensus/raft.py:428-430 | A call that times out waits no more, and no other call is touched. |
| RaftNodes.RaftNode.StartElection | src/consensus/raft.py:145-172 | The first half of an election, on the fields. |
| RaftNodes.RaftNode.CollectVotes | src/consensus/raft.py:177-192 | The second half: nothing if role or term moved on, a step down at the first newer term with the votes before it counted, otherwise office on a majority. |
| RaftNodes.RaftNode.CountVotes | src/consensus/raft.py:181-188 | The loop stops at the first newer response and counts exactly the grants before it. |
| RaftNodes.RaftNode.BecomeLeader | src/consensus/raft.py:194-204 | Office is taken and every peer's indices start over. |
| RaftNodes.RaftNode.HandleRequestVote | src/consensus/raft.py:327-352 | The vote handler. |
| RaftNodes.RaftNode.MakeAppendRequest | src/consensus/raft.py:249-265 | The request carries the leader's whole suffix from the peer's next index on. |
| RaftNodes.RaftNode.HandleAppendReply | src/consensus/raft.py:270-282 | The leader's side of an answered request. |
| RaftNodes.RaftNode.HandleAppendEntries | src/consensus/raft.py:354-400 | The append handler, with its three refusals and both truncations. |
| RaftNodes.RaftNode.AppendEntries | src/consensus/raft.py:384-392 | The loop that truncates and appends entry by entry keeps what agrees, and replaces everything from the first conflict on. |
| RaftNodes.RaftNode.AdvanceCommitIndex | src/consensus/raft.py:284-304 | The downward search commits the newest index of the current term that a majority holds, and answers the call waiting there. |
| RaftNodes.RaftNode.AppendCommand | src/consensus/raft.py:413-426 | A leader appends the command at the end and registers the call; others refuse and name the leader they know. |
| RaftNodes.RaftNode.ApplyCommitted | src/consensus/raft.py:308-319 | One pass of the apply loop as written: at most one entry is handed over, the last. |
| RaftSpec.NewestQuorate | src/consensus/raft.py:288-304 | The result is the commit index or a quorate index above it, and no higher index is quorate. |
| RaftSpec.Agreeing | src/consensus/raft.py:385-392 | How many of the request's entries the log already holds, and that the next one conflicts or is missing. |
| ReplicatedLocks.HandedIsPrefix | src/consensus/raft.py:315-319 | All the intended loop has handed over, pass by pass from the log as it then was, is still the first `last_applied` + 1 entries of the log. |
| ReplicatedLocks.HandedComparable | src/consensus/raft.py:308-319 | Of what the intended loop has handed to two replicas, at any two moments, one is the beginning of the other. |
| ReplicatedLocks.ReplicasAgree | src/consensus/raft.py:308-319 | With the intended loop, replicas with equal `last_applied` have been handed the same entries and keep the same lock table. |
| ReplicatedLocks.DeliversPrefixIff | src/consensus/raft.py:315-319 | As written, a node has delivered what the intended loop hands over if and only if each of its passes found exactly one new entry. |
| ReplicatedLocks.ReplicasAgreeAsWritten | src/consensus/raft.py:315-319 | Under that condition replicas agree as written. |
| ApplyBatch.BatchedApplyLosesEntry | src/consensus/raft.py:315-319 | A run of one node in which two commands commit together and the first lock is never taken. |
| ApplyBatch.BatchedCommitAnswersOne | src/consensus/raft.py:301-302 | In the same run the call for the first command is left unanswered. |
| LockManagers.LockManager.OnCommit | src/nodes/lock_manager.py:128-134 | A committed command changes the dictionaries and records to exactly the next lock table. |
| LockManagers.LockManager.ApplyAcquire | src/nodes/lock_manager.py:136-162 | Grant or queue, with the edges to all current holders. |
| LockManagers.LockManager.ApplyRelease | src/nodes/lock_manager.py:164-189 | Withdraw the holder, drop its edges both ways, rescan the queue as written. |
| LockManagers.LockState.GrantNext | src/nodes/lock_manager.py:177-189 | The rescan loop in place, with its break. |
| LockManagers.LockManager.FindCycles | src/nodes/lock_manager.py:206-227 | The detector on the manager's own graph: no list if and only if there is no cycle, and every cycle contains the closing edge of a list. |
| LockSafety.ScanOutcome | src/nodes/lock_manager.py:178-189 | The rescan in closed form, for every lock and queue: nobody behind a writer; one writer if it comes first at a free lock; otherwise all readers and no writer. |
| LockSafety.ScanKeepingTailConserves | src/nodes/lock_manager.py:177-189 | The scan that keeps the tail leaves every request granted or queued, once and in order, and grants nobody, one writer or all readers. |
| LockSafety.ScanConservesIff | src/nodes/lock_manager.py:183-189 | The scan as written conserves requests if and only if it does not grant a writer with others behind it. |
| LockSafety.ScanLosesARequest | src/nodes/lock_manager.py:183-189 | Four commands after which a queued client neither holds nor waits. |
| LockSafety.ReaderWriterExclusion | src/nodes/lock_manager.py:152-162 | After any commands a writer excludes readers, a free lock has an empty queue, a queued reader waits for a writer, and nobody queued could be granted. |
| LockEffects.AcquireGrants | src/nodes/lock_manager.py:152-157 | With nobody in the way the client becomes a holder in the mode it asked for, and no other holder, queue or edge changes. |
| LockEffects.AcquireQueues | src/nodes/lock_manager.py:158-162 | Otherwise the request is last in the queue, no holder changes, and the client waits for exactly the named holders besides those it waited for. |
| LockEffects.OtherLocksStay | src/nodes/lock_manager.py:148-189 | A command leaves every lock alone that it does not name. |
| LockEffects.ReleaseWithdraws | src/nodes/lock_manager.py:170-173 | With nobody queued a release takes the lock from the client, in whatever mode it held it, and from nobody else. |
| LockEffects.ReleaseHandsOver | src/nodes/lock_manager.py:170-189 | With requests queued, who holds the lock afterwards and who still waits, in all three cases. |
| LockEffects.ReleaseEndsHolding | src/nodes/lock_manager.py:170-189 | After its release a client holds the lock only if a request of its own was queued for it. |
| LockEffects.ReleaseDropsEdges | src/nodes/lock_manager.py:174-176 | A release drops every edge to and from the client, and no other. |
| LockEffects.GrantLasts | src/nodes/lock_manager.py:152-189 | A client whose request is granted holds the lock, in that mode, through any commands until its own release of it. |
| LockEffects.WriterLeavesFree | src/nodes/lock_manager.py:170-173 | After any commands, a writer's release of a lock nobody waits for leaves it free. |
| LockSafety.CommandKeepsEdgesOk | src/nodes/lock_manager.py:159-176 | Every command keeps this: an edge u to v means u is queued for a lock that v holds in a conflicting mode. |
| LockSafety.BlockedUntilRelease | src/nodes/lock_manager.py:170-189 | Only the holder's own release of that lock can unblock a queued request. |
| LockSafety.DeadlockPermanent | src/nodes/lock_manager.py:206-227 | Along a cycle each client waits for something the next one holds, and without a release by a member none of these requests is granted and the cycle stays. |
| DeadlockReports.CommandKeepsCompleteIff | src/nodes/lock_manager.py:152-189 | When a command keeps every edge there: an acquisition unless it lets a reader in past writers that do not wait for it, or queues behind a holder with an empty name; a release if and only if the client waits nowhere, nobody waits for it on another lock, and nobody stays queued behind a newly let in reader without waiting for it already. |
| DeadlockReports.CompleteThroughoutIff | src/nodes/lock_manager.py:128-189 | The graph is complete all through a run if and only if no command of it does any of that. |
| DeadlockReports.CompleteReportsDeadlocks | src/nodes/lock_manager.py:206-227 | In a complete graph the cycles are exactly the deadlocks, so the detector reports something whenever there is one. |
| DeadlockReports.UnreportedDeadlock | src/nodes/lock_manager.py:174-189 | Six commands from the empty table into a deadlock of two clients in whose graph there is no cycle. |
| CycleFinders.CycleFinder.FindCycles | src/nodes/lock_manager.py:206-227 | The search ends on every finite graph, finds nothing if and only if the graph is acyclic, every list found is a simple cycle including its closing edge, and every cycle of the graph contains the closing edge of some list found. |
| CycleFinders.CycleFinder.Dfs | src/nodes/lock_manager.py:212-222 | The recursive search keeps the path and the finish order, and loses no cycle already found. |
| CycleFinders.RankedCatches | src/nodes/lock_manager.py:216-222 | In a finish order where successors come earlier except along edges that close a list found, every cycle contains such an edge. |
| CycleFinders.RankedAcyclic | src/nodes/lock_manager.py:216-222 | A finish order in which successors come earlier rules out every cycle. |
| CycleFinders.PathClosesCycle | src/nodes/lock_manager.py:219-220 | The path from the repeated vertex on is a simple cycle. |
| ConsistentHashes.ConsistentHashRing.AddNode | src/nodes/queue_node.py:74-79 | A node claims its virtual positions in label order, and the list stays sorted. |
| ConsistentHashes.ConsistentHashRing.RemoveNode | src/nodes/queue_node.py:81-87 | Each of the node's positions that still has an owner goes, whoever owns it. |
| ConsistentHashes.ConsistentHashRing.GetNode | src/nodes/queue_node.py:89-96 | The binary search with wrap-around computes the lookup. |
| ConsistentHashes.BisectRight | src/nodes/queue_node.py:77 | Where a sorted list passes from at most x to above x. |
| ConsistentHashes.BisectLeft | src/nodes/queue_node.py:93 | The first position at or after the key's hash. |
| RingSafety.DecimalReadsBack | src/nodes/queue_node.py:76 | The numeral of an index is all digits, has no leading zero, and reads back as the index. |
| RingSafety.LabelReadsBack | src/nodes/queue_node.py:76 | A label is the node's name, a hash sign and a numeral that reads back as the index. |
| RingSafety.LabelsDiffer | src/nodes/queue_node.py:76 | No two virtual nodes share a label, whatever the nodes are called. |
| RingSafety.InjectiveNoCollisions | src/nodes/queue_node.py:74-78 | A hash without collisions gives every virtual node a position of its own, for every number of virtual nodes. |
| RingSafety.PositionsAt | src/nodes/queue_node.py:75-76 | A node's positions are the hashes of its labels, one for each virtual node. |
| RingSafety.OwnsItsShare | src/nodes/queue_node.py:74-78 | Without collisions each node owns exactly as many positions of the ring as it has virtual nodes. |
| RingSafety.FindSuccessor | src/nodes/queue_node.py:89-96 | Lookup gives the owner of the clockwise successor: the least position at or after the hash, or the least of all. |
| RingSafety.AddMovesOnlyToNew | src/nodes/queue_node.py:74-79 | Adding a node moves keys only to that node, collisions or not. |
| RingSafety.RemoveMovesOnlyOwn | src/nodes/queue_node.py:81-87 | Removing a node that owns its positions moves only its own keys, and the ring stays sound. |
| RingSafety.AddHealthyIff | src/nodes/queue_node.py:74-79 | The list has exactly the dictionary's keys, once each, after an addition if and only if the new positions are distinct and were free. |
| RingSafety.RemoveAfterAddIff | src/nodes/queue_node.py:74-87 | Removing a node after adding it restores the ring under exactly the same condition. |
| RingSafety.OrderIrrelevantIff | src/nodes/queue_node.py:76-78 | Two nodes may be added in either order if and only if they share no position. |
| RingSafety.BuildHolds | src/nodes/queue_node.py:134-136 | Without collisions the ring built from a list of distinct nodes holds exactly their positions, each owned by its node. |
| RingSafety.RoutingAgrees | src/nodes/queue_node.py:119-136 | Nodes that list the same ids, each in its own order, build identical rings and route every key to the same member. |
| RingSafety.BuildServing | src/nodes/queue_node.py:134-136 | Any list of nodes, with any collisions, gives a ring that finds a node for every key. |
| QueueNodes.QueueNode.Start | src/nodes/queue_node.py:134-136 | The start-up loop builds the ring of all nodes. |
| QueueNodes.QueueNode.Produce | src/nodes/queue_node.py:164-175 | Routing by id, forwarding, and the local fallback when no answer came. |
| QueueNodes.QueueNode.StoreMessage | src/nodes/queue_node.py:182-187 | The record is written and the id joins the pending list behind all others. |
| QueueNodes.QueueNode.Consume | src/nodes/queue_node.py:191-216 | The four outcomes of consuming, each with its new state. |
| QueueNodes.QueueNode.Acknowledge | src/nodes/queue_node.py:218-224 | Completed, whatever it was, and no longer in flight. |
| QueueNodes.QueueNode.CheckAndRedeliver | src/nodes/queue_node.py:237-263 | The two nested loops over queues and expired ids. |
| QueueNodes.QueueNode.Redeliver | src/nodes/queue_node.py:244-263 | One expired id: skipped, failed, or pending again with one more retry. |
| QueueEffects.StoreOutcome | src/nodes/queue_node.py:182-187 | A stored message waits with no retries behind all that waited already; no other message is changed. |
| QueueEffects.ProduceOutcome | src/nodes/queue_node.py:164-175 | How often one call to produce puts the message into the list, in all four cases of forwarding. |
| QueueEffects.ConsumeOutcome | src/nodes/queue_node.py:196-216 | A delivered message leaves the front of the list and is in flight, with its retries, until the given deadline. |
| QueueEffects.ConsumeOtherwise | src/nodes/queue_node.py:196-205 | Exactly when the front id is delivered, dropped as empty, or raises, and that nothing else changes then. |
| QueueEffects.AcknowledgeOutcome | src/nodes/queue_node.py:218-224 | An acknowledged message is completed wherever it is and in flight no more; if it is pending it stays so. |
| QueueEffects.RecoverReturns | src/nodes/queue_node.py:241-261 | In any run, a sweep that gets to its end leaves all who waited in place, and puts the expired messages with retries left behind them, in the order swept. |
| QueueSafety.StepKeeps | src/nodes/queue_node.py:182-263 | Every operation keeps every message sound. |
| QueueSafety.QueueOfIff | src/nodes/queue_node.py:242 | The second field of an in-flight key is the queue's name if and only if the name has no colon. |
| QueueSafety.RecoveredIff | src/nodes/queue_node.py:240-263 | An expired message leaves the in-flight set if and only if its queue's name has no colon. |
| QueueSafety.RedeliverStaleIff | src/nodes/queue_node.py:243-261 | Redelivering from an out-of-date list keeps a message sound if and only if it is not back in the pending list, or its queue's name has a colon. |
| QueueRuns.TwoLoopsDuplicate | src/nodes/queue_node.py:243-261 | After one store and one delivery, two loops that both list the message leave it in the pending list twice. |
| QueueRuns.ColonQueueStuck | src/nodes/queue_node.py:240-248 | A message in a queue called "a:b" is still in flight, past its deadline, after any number of sweeps. |
| QueueRuns.SweepEndsIff | src/nodes/queue_node.py:241-249 | In any run a sweep gets to its end if and only if no expired id has a record under the queue name that its key is misread as. |
| QueueRuns.MisdirectedAckStopsSweep | src/nodes/queue_node.py:218-249 | An acknowledgement under the name "a" leaves a record that makes every sweep of "a:b" raise. |
| QueueRuns.MessageConserved | src/nodes/queue_node.py:182-263 | In every run, whatever the queues are called, a stored message is pending, in flight, acknowledged, or failed after exactly MAX_RETRIES + 1 deliveries, in one place only; deliveries are retries plus one unless it is pending, and at most MAX_RETRIES + 1. |
| QueueRuns.ExpiredRecovered | src/nodes/queue_node.py:243-261 | A sweep that misreads nothing makes every expired message of a queue without a colon pending again with one more retry, or failed once they are used up, and touches no other message. |
| QueueRuns.ConsumeDelivers | src/nodes/queue_node.py:196-205 | In every run a non-empty pending list delivers a message: no record is missing or broken and no id is lost. |
| QueueRuns.FirstDeliveriesInOrder | src/nodes/queue_node.py:186-196 | Of two messages of a queue the one stored first is handed out first, whatever is redelivered meanwhile. |
| QueueRuns.StoreKeepsIff | src/nodes/queue_node.py:182-187 | Storing keeps all messages sound if and only if this one was never stored before, whatever its id and queue. |
| QueueRuns.TakeKeepsIff | src/nodes/queue_node.py:196-198 | Consuming keeps all messages sound if and only if the id it pops is not empty; an empty one is dropped undelivered. |
| QueueRuns.ProduceKeepsIff | src/nodes/queue_node.py:166-175 | Produce keeps all messages sound unless the forwarded request arrived and only its answer was lost. |
| QueueRuns.FallbackDeliversTwice | src/nodes/queue_node.py:171-175 | In that case two consumers are handed the message with no deadline missed. |
| QueueRuns.AnswersAreExpired | src/nodes/queue_node.py:240-244 | The ids the nested loops visit are exactly the expired ones, each once, in whatever order Redis lists queues and ids. |

## Left out

- Restarts: term, vote and log live in memory only (`src/consensus/raft.py:82-85`). Nodes may stop for ever but do not
  come back without their state.
- Liveness and wall-clock time: timeouts fire at any time. `RaftProgress` proves that progress always stays possible,
  not that it happens.
- HTTP, the Redis client, TLS, access control, metrics, configuration and the health endpoints; and the conversions of
  log entries to and from dictionaries. Peers' URLs are identified with node ids.
- Atomicity of the queue operations: crashes, and other nodes' operations, between two Redis commands of one operation.
  `QueueSafety.RedeliverStaleIff` and `QueueRuns.TwoLoopsDuplicate` say what one such interleaving does.
- Expiry of message records after a day, timestamps, payloads, and `_flatten` / `_unflatten`, which are not inverse for
  strings that look like numbers.
- `_resolve_deadlock` (`src/nodes/lock_manager.py:229-241`): it changes the lock table outside the Raft log, so replicas
  that run it no longer agree, and it removes readers without granting anybody.
- The lock timeout and timestamp, which are stored and never enforced; and lock types other than the two, for which the
  handler raises.
- The MESI cache, the LRU cache, the failure detector and the audit chain.
