/** What each handler does to a node, in terms of the state it finds. */
module RaftEffects {
  import opened LockCommands
  import opened RaftSpec
  import opened Wrappers

  // ---- Election ----

  /**
    A vote is granted exactly when the request's term is the node's, or newer, the node has not voted for another
    in it, and the candidate's log is at least as new; a newer term is taken over either way, and nothing else changes.
   */
  lemma VoteOutcome(s: NodeState, req: VoteRequest)
    ensures var (s', r) := HandleVote(s, req);
      var newer := req.term > s.currentTerm;
      && (r.granted <==>
            && req.term >= s.currentTerm && (newer || s.votedFor == None || s.votedFor == Some(req.candidate))
            && (req.lastLogTerm > LastTerm(s.log)
                || (req.lastLogTerm == LastTerm(s.log) && req.lastLogIndex >= |s.log| - 1)))
      && r.term == s'.currentTerm == Max(s.currentTerm, req.term)
      && s'.votedFor == (if r.granted then Some(req.candidate) else if newer then None else s.votedFor)
      && s'.role == (if newer then Follower else s.role)
      && s' == s.(currentTerm := s'.currentTerm, votedFor := s'.votedFor, role := s'.role)
  {
  }

  /** Some peer's response carries a term above the candidate's own. */
  predicate SomeNewer(peers: seq<NodeId>, results: map<NodeId, VoteResponse>, term: nat) {
    exists p :: p in peers && p in results && results[p].term > term
  }

  /** The node leads and says so; its peers' indices are reset, and nothing else changes. */
  ghost predicate TakesOverFrom(s: NodeState, s': NodeState, me: NodeId, peers: seq<NodeId>) {
    && s' == s.(role := Leader, currentLeader := Some(me), nextIndex := s'.nextIndex, matchIndex := s'.matchIndex)
    && (forall p :: p in peers ==> NextOf(s', p) == |s.log| && MatchOf(s', p) == -1)
    && (forall p :: p !in peers ==> NextOf(s', p) == NextOf(s, p) && MatchOf(s', p) == MatchOf(s, p))
  }

  /** A candidate that gets a newer response steps down to the term of one. */
  lemma NewerResponseStepsDown(s: NodeState, me: NodeId, peers: seq<NodeId>, results: map<NodeId, VoteResponse>)
    requires s.role == Candidate && SomeNewer(peers, results, s.currentTerm)
    ensures var s' := CollectVotes(s, me, peers, s.currentTerm, results);
      && s' == s.(role := Follower, votedFor := None, currentTerm := s'.currentTerm, votesReceived := s'.votesReceived)
      && exists p :: p in peers && p in results && s'.currentTerm == results[p].term > s.currentTerm
  {
    var k := FirstNewer(peers, results, s.currentTerm);
    assert k < |peers|;
    assert peers[k] in peers;
  }

  /** Otherwise it counts all grants, and takes office, with every peer's indices reset, if they are more than half. */
  lemma MajorityTakesOffice(s: NodeState, me: NodeId, peers: seq<NodeId>, results: map<NodeId, VoteResponse>)
    requires s.role == Candidate && !SomeNewer(peers, results, s.currentTerm)
    ensures var s' := CollectVotes(s, me, peers, s.currentTerm, results);
      var votes := s.votesReceived + set p | p in peers && p in results && results[p].granted;
      if 2 * |votes| > |peers| + 1 then
        TakesOverFrom(s.(votesReceived := votes), s', me, peers)
      else
        s' == s.(votesReceived := votes)
  {
    var k := FirstNewer(peers, results, s.currentTerm);
    assert k == |peers| && peers[..k] == peers;
    var granters := set p | p in peers && p in results && results[p].granted;
    assert Granters(peers, results) == granters;
    OfficeTaken(s.(votesReceived := s.votesReceived + granters), me, peers);
  }

  lemma OfficeTaken(s: NodeState, me: NodeId, peers: seq<NodeId>)
    ensures TakesOverFrom(s, BecomeLeader(s, me, peers), me, peers)
  {
  }

  /** Votes for an election that is over change nothing. */
  lemma CollectTooLate(s: NodeState, me: NodeId, peers: seq<NodeId>, term: nat, results: map<NodeId, VoteResponse>)
    requires s.role != Candidate || s.currentTerm != term
    ensures CollectVotes(s, me, peers, term, results) == s
  {
  }

  // ---- Replication ----

  /** A request continues the leader's log to its end, and tells how much of it is committed. */
  lemma RequestContinues(s: NodeState, me: NodeId, peer: NodeId)
    requires 0 <= NextOf(s, peer) <= |s.log|
    ensures var req := AppendRequestOf(s, me, peer);
      && req.term == s.currentTerm && req.leader == me && req.leaderCommit == s.commitIndex
      && req.prevLogIndex == NextOf(s, peer) - 1 && s.log[..req.prevLogIndex + 1] + req.entries == s.log
      && (req.prevLogIndex >= 0 ==> req.prevLogTerm == s.log[req.prevLogIndex].term)
  {
  }

  /** The log holds the entry the request starts behind, or the request starts at the beginning. */
  predicate Fits(log: Log, req: AppendRequest) {
    req.prevLogIndex < |log| && (req.prevLogIndex >= 0 ==> log[req.prevLogIndex].term == req.prevLogTerm)
  }

  /** A request of an older term is refused and changes nothing. */
  lemma OldRequestRefused(s: NodeState, req: AppendRequest)
    requires -1 <= req.prevLogIndex && req.term < s.currentTerm
    ensures HandleAppend(s, req) == (s, AppendResponse(s.currentTerm, false))
  {
  }

  /**
    Any other is accepted exactly when it fits.  Either way the node takes over the term and the leader's name, and
    is no candidate any more.  A refusal cuts the log before an entry that does not fit, and commits nothing.
   */
  lemma RequestOutcome(s: NodeState, req: AppendRequest)
    requires -1 <= req.prevLogIndex && req.term >= s.currentTerm
    ensures var (s', r) := HandleAppend(s, req);
      && r.term == s'.currentTerm == req.term && (r.success <==> Fits(s.log, req))
      && s'.currentLeader == Some(req.leader)
      && s'.role == (if req.term == s.currentTerm && s.role == Leader then Leader else Follower)
      && s'.votedFor == (if req.term > s.currentTerm then None else s.votedFor)
      && (if r.success then
            && s'.log == Merge(s.log, req.prevLogIndex + 1, req.entries)
            && s'.commitIndex ==
                 (if req.leaderCommit > s.commitIndex then Min(req.leaderCommit, |s'.log| - 1) else s.commitIndex)
          else
            && s'.log == (if req.prevLogIndex < |s.log| then s.log[..req.prevLogIndex] else s.log)
            && s'.commitIndex == s.commitIndex)
      && s' == s.(currentTerm := req.term, votedFor := s'.votedFor, role := s'.role, currentLeader := Some(req.leader),
                  log := s'.log, commitIndex := s'.commitIndex)
  {
  }

  /** The log has an entry of the same term where entry i of the request belongs. */
  predicate Matches(log: Log, at: nat, entries: Log, i: nat)
    requires i < |entries|
  {
    at + i < |log| && log[at + i].term == entries[i].term
  }

  lemma {:induction false} AgreeingIs(log: Log, at: nat, entries: Log, k: nat)
    requires at <= |log| && k <= |entries|
    requires forall i: nat :: i < k ==> Matches(log, at, entries, i)
    requires k < |entries| ==> !Matches(log, at, entries, k)
    ensures Agreeing(log, at, entries) == k && at + k <= |log|
    decreases k
  {
    if k > 0 {
      assert Matches(log, at, entries, 0);
      var next, rest := at + 1, entries[1..];
      forall i: nat | i < k - 1 ensures Matches(log, next, rest, i) {
        assert Matches(log, at, entries, i + 1);
      }
      assert k < |entries| ==> !Matches(log, at, entries, k);
      AgreeingIs(log, next, rest, k - 1);
    } else if entries != [] {
      assert !Matches(log, at, entries, 0);
    }
  }

  /** A log that holds all the entries, term by term, is left alone, even where it goes on beyond them. */
  lemma MergeKeepsLonger(log: Log, at: nat, entries: Log)
    requires at <= |log| && forall i: nat :: i < |entries| ==> Matches(log, at, entries, i)
    ensures Merge(log, at, entries) == log
  {
    AgreeingIs(log, at, entries, |entries|);
  }

  /** Otherwise everything from the first entry that is missing or conflicts is replaced by the request's. */
  lemma MergeReplacesFrom(log: Log, at: nat, entries: Log, k: nat)
    requires at <= |log| && k < |entries| && !Matches(log, at, entries, k)
    requires forall i: nat :: i < k ==> Matches(log, at, entries, i)
    ensures at + k <= |log| && Merge(log, at, entries) == log[..at + k] + entries[k..]
  {
    AgreeingIs(log, at, entries, k);
  }

  /**
    An answer from a newer term ends the leader's reign.  Otherwise success moves the peer's next index past the
    entries sent and raises its match index to the last of them; a refusal takes the next index one entry back.
   */
  lemma ReplyOutcome(s: NodeState, peer: NodeId, req: AppendRequest, resp: AppendResponse)
    requires s.role == Leader
    ensures var s' := HandleReply(s, peer, req, resp);
      var last := req.prevLogIndex + |req.entries|;
      if resp.term > s.currentTerm then
        s' == s.(currentTerm := resp.term, votedFor := None, role := Follower)
      else
        && s' == s.(nextIndex := s'.nextIndex, matchIndex := s'.matchIndex)
        && NextOf(s', peer) == (if resp.success then last + 1 else Max(0, req.prevLogIndex))
        && MatchOf(s', peer) == (if resp.success then Max(MatchOf(s, peer), last) else MatchOf(s, peer))
        && forall p :: p != peer ==> NextOf(s', p) == NextOf(s, p) && MatchOf(s', p) == MatchOf(s, p)
  {
  }

  // ---- Commitment ----

  /** The entry is of the leader's own term, and the leader and the peers known to hold it are more than half. */
  ghost predicate HeldByMajority(s: NodeState, peers: seq<NodeId>, m: int) {
    && 0 <= m < |s.log| && s.log[m].term == s.currentTerm
    && 2 * (1 + |set p | p in s.matchIndex && s.matchIndex[p] >= m|) > |peers| + 1
  }

  /** The leader commits as far as the newest entry of its term that a majority holds, wherever in the log it is. */
  lemma CommitReachesMajority(s: NodeState, peers: seq<NodeId>)
    requires s.role == Leader && -1 <= s.commitIndex
    ensures var s' := AdvanceCommit(s, peers);
      && s.commitIndex <= s'.commitIndex
      && (forall m :: HeldByMajority(s, peers, m) ==> m <= s'.commitIndex)
      && (s'.commitIndex == s.commitIndex || HeldByMajority(s, peers, s'.commitIndex))
      && s' == s.(commitIndex := s'.commitIndex, pending := s'.pending, answers := s'.answers)
  {
    forall m | 0 <= m < |s.log| ensures Quorate(s, peers, m) <==> HeldByMajority(s, peers, m) {
      assert Ackers(s, m) == set p | p in s.matchIndex && s.matchIndex[p] >= m;
    }
    var n := NewestQuorate(s, peers, |s.log| - 1);
  }

  // ---- Clients ----

  /** A leader appends the command and lets the call wait for it; any other node only names the leader it heard of. */
  lemma CommandOutcome(s: NodeState, command: Command)
    ensures var (s', reply) := AppendCommand(s, command);
      if s.role == Leader then
        var entry := LogEntry(s.currentTerm, |s.log|, command);
        && reply == Accepted(entry) && s'.log == s.log + [entry]
        && Waiting(s', |s.log|) && s'.pending[|s.log|].entry == entry
        && (forall n :: n != |s.log| ==> (n in s'.pending <==> n in s.pending))
        && (forall n :: n != |s.log| && n in s.pending ==> s'.pending[n] == s.pending[n])
        && s' == s.(log := s'.log, pending := s'.pending)
      else
        reply == NotLeader(s.currentLeader) && s' == s
  {
  }

  predicate Waiting(s: NodeState, n: int) {
    n in s.pending && !s.pending[n].done
  }

  /** A call that gives up waits no more, and is not answered; other calls are not touched. */
  lemma GiveUpOutcome(s: NodeState, n: int)
    ensures var s' := GiveUp(s, n);
      && !Waiting(s', n) && s' == s.(pending := s'.pending) && s'.pending.Keys == s.pending.Keys
      && forall m :: m != n && m in s.pending ==> s'.pending[m] == s.pending[m]
  {
  }
}
