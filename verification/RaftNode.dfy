/** The node with its mutable fields; each method is one handler, or the code between two awaits of a coroutine. */
module RaftNodes {
  import opened Wrappers
  import opened LockCommands
  import opened RaftSpec

  lemma GrantersStep(peers: seq<NodeId>, results: map<NodeId, VoteResponse>, i: nat)
    requires i < |peers|
    ensures Granters(peers[..i + 1], results) == Granters(peers[..i], results)
              + if peers[i] in results && results[peers[i]].granted then {peers[i]} else {}
  {
    assert peers[..i + 1] == peers[..i] + [peers[i]];
  }

  lemma UniformStep(m: map<NodeId, int>, peers: seq<NodeId>, i: nat, value: int)
    requires i < |peers|
    ensures m + Uniform(peers[..i + 1], value) == (m + Uniform(peers[..i], value))[peers[i] := value]
  {
    assert peers[..i + 1][..i] == peers[..i];
  }

  class RaftNode {
    const nodeId: NodeId
    const peers: seq<NodeId>

    var currentTerm: nat
    var votedFor: Option<NodeId>
    var log: Log

    var commitIndex: int
    var lastApplied: int

    var nextIndex: map<NodeId, int>
    var matchIndex: map<NodeId, int>

    var role: Role
    var currentLeader: Option<NodeId>
    var votesReceived: set<NodeId>
    var pending: map<int, Future>
    var answers: seq<Answer>

    var held: Option<LogEntry>
    var delivered: seq<LogEntry>

    function State(): NodeState
      reads this
    {
      NodeState(currentTerm, votedFor, log, commitIndex, lastApplied, nextIndex, matchIndex,
                role, currentLeader, votesReceived, pending, answers, held, delivered)
    }

    constructor (nodeId: NodeId, peers: seq<NodeId>)
      ensures this.nodeId == nodeId && this.peers == peers
      ensures State() == INITIAL
    {
      this.nodeId, this.peers := nodeId, peers;
      currentTerm, votedFor, log := 0, None, [];
      commitIndex, lastApplied := -1, -1;
      nextIndex, matchIndex := map[], map[];
      role, currentLeader, votesReceived := Follower, None, {};
      pending, answers := map[], [];
      held, delivered := None, [];
    }

    // ---- Election ----

    /** First half of an election: up to the point where the lock is released to ask for votes. */
    method StartElection() returns (req: VoteRequest)
      modifies this
      ensures State() == RaftSpec.StartElection(old(State()), nodeId)
      ensures req == VoteRequestOf(State(), nodeId)
    {
      role := Candidate;
      currentTerm := currentTerm + 1;
      votedFor := Some(nodeId);
      votesReceived := {nodeId};
      req := VoteRequest(currentTerm, nodeId, |log| - 1, if |log| > 0 then log[|log| - 1].term else 0);
    }

    /** Second half: `term` is the term the election was started in, `results` the responses that arrived. */
    method CollectVotes(term: nat, results: map<NodeId, VoteResponse>)
      modifies this
      ensures State() == RaftSpec.CollectVotes(old(State()), nodeId, peers, term, results)
    {
      if role != Candidate || currentTerm != term {
        return;
      }
      var k := CountVotes(results);
      if k < |peers| {
        StepDown(results[peers[k]].term);
        return;
      }
      if |votesReceived| >= (|peers| + 1) / 2 + 1 {
        BecomeLeader();
      }
    }

    /** The counting loop; it stops at the first response from a newer term. */
    method CountVotes(results: map<NodeId, VoteResponse>) returns (k: nat)
      modifies this`votesReceived
      ensures k == FirstNewer(peers, results, currentTerm)
      ensures votesReceived == old(votesReceived) + Granters(peers[..k], results)
    {
      k := 0;
      while k < |peers|
        invariant k <= FirstNewer(peers, results, currentTerm)
        invariant votesReceived == old(votesReceived) + Granters(peers[..k], results)
      {
        var peer := peers[k];
        GrantersStep(peers, results, k);
        if peer in results {
          var resp := results[peer];
          if resp.term > currentTerm {
            break;
          }
          if resp.granted {
            votesReceived := votesReceived + {peer};
          }
        }
        k := k + 1;
      }
    }

    method BecomeLeader()
      modifies this
      ensures State() == RaftSpec.BecomeLeader(old(State()), nodeId, peers)
    {
      role := Leader;
      currentLeader := Some(nodeId);
      ResetIndices();
    }

    method ResetIndices()
      modifies this`nextIndex, this`matchIndex
      ensures nextIndex == old(nextIndex) + Uniform(peers, |log|)
      ensures matchIndex == old(matchIndex) + Uniform(peers, -1)
    {
      var i := 0;
      while i < |peers|
        invariant 0 <= i <= |peers|
        invariant nextIndex == old(nextIndex) + Uniform(peers[..i], |log|)
        invariant matchIndex == old(matchIndex) + Uniform(peers[..i], -1)
      {
        UniformStep(old(nextIndex), peers, i, |log|);
        UniformStep(old(matchIndex), peers, i, -1);
        nextIndex := nextIndex[peers[i] := |log|];
        matchIndex := matchIndex[peers[i] := -1];
        i := i + 1;
      }
      assert peers[..i] == peers;
    }

    method StepDown(newTerm: nat)
      modifies this
      ensures State() == RaftSpec.StepDown(old(State()), newTerm)
    {
      currentTerm := newTerm;
      votedFor := None;
      role := Follower;
    }

    method HandleRequestVote(req: VoteRequest) returns (resp: VoteResponse)
      modifies this
      ensures (State(), resp) == RaftSpec.HandleVote(old(State()), req)
    {
      if req.term > currentTerm {
        StepDown(req.term);
      }
      var myLastIndex := |log| - 1;
      var myLastTerm := if |log| > 0 then log[|log| - 1].term else 0;
      var logOk := req.lastLogTerm > myLastTerm || (req.lastLogTerm == myLastTerm && req.lastLogIndex >= myLastIndex);
      var canVote := votedFor == None || votedFor == Some(req.candidate);
      var grant := req.term == currentTerm && canVote && logOk;
      if grant {
        votedFor := Some(req.candidate);
      }
      resp := VoteResponse(currentTerm, grant);
    }

    // ---- Replication ----

    /** The request the leader sends to one peer; an index above the log would be an IndexError. */
    method MakeAppendRequest(peer: NodeId) returns (req: AppendRequest)
      requires 0 <= NextOf(State(), peer) <= |log|
      ensures req == AppendRequestOf(State(), nodeId, peer)
    {
      var next := if peer in nextIndex then nextIndex[peer] else |log|;
      var prevTerm := if next - 1 >= 0 && |log| > 0 then log[next - 1].term else 0;
      req := AppendRequest(currentTerm, nodeId, next - 1, prevTerm, log[next..], commitIndex);
    }

    method HandleAppendReply(peer: NodeId, req: AppendRequest, resp: AppendResponse)
      modifies this
      ensures State() == RaftSpec.HandleReply(old(State()), peer, req, resp)
    {
      if resp.term > currentTerm {
        StepDown(resp.term);
        return;
      }
      if role != Leader {
        return;
      }
      if resp.success {
        var newMatch := req.prevLogIndex + |req.entries|;
        matchIndex := matchIndex[peer := Max(if peer in matchIndex then matchIndex[peer] else -1, newMatch)];
        nextIndex := nextIndex[peer := newMatch + 1];
      } else {
        var next := req.prevLogIndex + 1;
        nextIndex := nextIndex[peer := Max(0, next - 1)];
      }
    }

    method HandleAppendEntries(req: AppendRequest) returns (resp: AppendResponse)
      requires -1 <= req.prevLogIndex
      modifies this
      ensures State() == RaftSpec.HandleAppend(old(State()), req).0
      ensures resp == RaftSpec.HandleAppend(old(State()), req).1
    {
      if req.term < currentTerm {
        return AppendResponse(currentTerm, false);
      }
      if req.term > currentTerm {
        StepDown(req.term);
      }
      resp := AppendInTerm(req);
    }

    /** The rest of the append handler, once the node's term is the request's. */
    method AppendInTerm(req: AppendRequest) returns (resp: AppendResponse)
      requires -1 <= req.prevLogIndex
      modifies this
      ensures State() == AppendAtTerm(old(State()), req).0
      ensures resp == AppendAtTerm(old(State()), req).1
    {
      Hear(req.leader);
      if req.prevLogIndex >= 0 {
        if |log| <= req.prevLogIndex {
          return AppendResponse(currentTerm, false);
        }
        if log[req.prevLogIndex].term != req.prevLogTerm {
          log := log[..req.prevLogIndex];
          return AppendResponse(currentTerm, false);
        }
      }
      Absorb(req);
      resp := AppendResponse(currentTerm, true);
    }

    method Hear(leader: NodeId)
      modifies this`currentLeader, this`role
      ensures State() == Heard(old(State()), leader)
    {
      currentLeader := Some(leader);
      if role == Candidate {
        role := Follower;
      }
    }

    method Absorb(req: AppendRequest)
      requires -1 <= req.prevLogIndex < |log|
      modifies this`log, this`commitIndex
      ensures State() == RaftSpec.Absorb(old(State()), req)
    {
      AppendEntries(req.prevLogIndex + 1, req.entries);
      if req.leaderCommit > commitIndex {
        commitIndex := Min(req.leaderCommit, |log| - 1);
      }
    }

    /** The append loop: the log changes in place, entry by entry. */
    method AppendEntries(at: nat, entries: Log)
      requires at <= |log|
      modifies this`log
      ensures log == Merge(old(log), at, entries)
    {
      ghost var k := Agreeing(log, at, entries);
      var i := 0;
      while i < |entries|
        invariant 0 <= i <= |entries|
        invariant log == if i <= k then old(log) else old(log)[..at + k] + entries[k..i]
      {
        var idx := at + i;
        if idx < |log| {
          if log[idx].term != entries[i].term {
            log := log[..idx];
            log := log + [entries[i]];
          }
        } else {
          log := log + [entries[i]];
        }
        i := i + 1;
      }
    }

    // ---- Commitment ----

    method AdvanceCommitIndex()
      requires -1 <= commitIndex
      modifies this
      ensures State() == AdvanceCommit(old(State()), peers)
    {
      if role != Leader {
        return;
      }
      var n := |log| - 1;
      while n > commitIndex
        invariant n < |log| && unchanged(this)
        invariant NewestQuorate(old(State()), peers, n) == NewestQuorate(old(State()), peers, |log| - 1)
      {
        if log[n].term != currentTerm {
          n := n - 1;
          continue;
        }
        assert Ackers(State(), n) == set p | p in matchIndex && matchIndex[p] >= n;
        var acks := 1 + |set p | p in matchIndex && matchIndex[p] >= n|;
        var majority := (|peers| + 1) / 2 + 1;
        if acks >= majority {
          commitIndex := n;
          if n in pending && !pending[n].done {
            answers := answers + [Answer(n, pending[n].entry)];
            pending := pending[n := pending[n].(done := true)];
          }
          break;
        }
        n := n - 1;
      }
    }

    // ---- Clients ----

    method AppendCommand(command: Command) returns (reply: ClientReply)
      modifies this
      ensures (State(), reply) == RaftSpec.AppendCommand(old(State()), command)
    {
      if role != Leader {
        return NotLeader(currentLeader);
      }
      var entry := LogEntry(currentTerm, |log|, command);
      log := log + [entry];
      pending := pending[entry.index := Future(entry, false)];
      reply := Accepted(entry);
    }

    /** `callback` is what this pass hands to the apply callback, if anything. */
    method ApplyCommitted() returns (callback: Option<LogEntry>)
      requires commitIndex < |log| && -1 <= lastApplied
      modifies this
      ensures State() == ApplyPass(old(State()))
      ensures delivered == old(delivered) + if callback.Some? then [callback.value] else []
    {
      while lastApplied < commitIndex
        invariant old(lastApplied) <= lastApplied
        invariant lastApplied == old(lastApplied) ==> unchanged(this)
        invariant lastApplied > old(lastApplied) ==>
                    lastApplied <= commitIndex < |log| && held == Some(log[lastApplied])
        invariant State() == old(State()).(lastApplied := lastApplied, held := held)
      {
        lastApplied := lastApplied + 1;
        held := Some(log[lastApplied]);
      }
      callback := held;
      if held.Some? {
        delivered := delivered + [held.value];
      }
    }
  }
}
