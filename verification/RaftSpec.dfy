/** The Raft node as a value, and what each handler does to it. */
module RaftSpec {
  // One function per piece of code between two awaits.  `RaftNode` proves that the methods over mutable fields
  // compute exactly these functions.

  import opened Wrappers
  import opened LockCommands

  type NodeId = nat

  datatype LogEntry = LogEntry(term: nat, index: int, command: Command)

  type Log = seq<LogEntry>

  datatype Role = Follower | Candidate | Leader

  /** A client call waiting for the entry it appended. */
  datatype Future = Future(entry: LogEntry, done: bool)

  /** A "committed at index" reply, with the entry the answered call had appended. */
  datatype Answer = Answer(index: int, entry: LogEntry)

  /** `held` is the local variable `entry` of the apply loop; `delivered` lists the entries given to the callback. */
  datatype NodeState = NodeState(
    currentTerm: nat, votedFor: Option<NodeId>, log: Log,
    commitIndex: int, lastApplied: int,
    nextIndex: map<NodeId, int>, matchIndex: map<NodeId, int>,
    role: Role, currentLeader: Option<NodeId>, votesReceived: set<NodeId>,
    pending: map<int, Future>, answers: seq<Answer>,
    held: Option<LogEntry>, delivered: seq<LogEntry>)

  datatype VoteRequest = VoteRequest(term: nat, candidate: NodeId, lastLogIndex: int, lastLogTerm: nat)
  datatype VoteResponse = VoteResponse(term: nat, granted: bool)
  datatype AppendRequest = AppendRequest(
    term: nat, leader: NodeId, prevLogIndex: int, prevLogTerm: nat, entries: Log, leaderCommit: int)
  datatype AppendResponse = AppendResponse(term: nat, success: bool)
  datatype ClientReply = Accepted(entry: LogEntry) | NotLeader(leader: Option<NodeId>)

  const INITIAL := NodeState(0, None, [], -1, -1, map[], map[], Follower, None, {}, map[], [], None, [])

  function LastTerm(log: Log): nat {
    if |log| == 0 then 0 else log[|log| - 1].term
  }

  function Majority(peers: seq<NodeId>): nat {
    (|peers| + 1) / 2 + 1
  }

  function StepDown(s: NodeState, term: nat): NodeState {
    s.(currentTerm := term, votedFor := None, role := Follower)
  }

  // ---- Election ----

  function StartElection(s: NodeState, me: NodeId): NodeState {
    s.(role := Candidate, currentTerm := s.currentTerm + 1, votedFor := Some(me), votesReceived := {me})
  }

  function VoteRequestOf(s: NodeState, me: NodeId): VoteRequest {
    VoteRequest(s.currentTerm, me, |s.log| - 1, LastTerm(s.log))
  }

  /** The position of the first response that carries a term above `term`, or |peers|. */
  function FirstNewer(peers: seq<NodeId>, results: map<NodeId, VoteResponse>, term: nat): (k: nat)
    ensures k <= |peers|
    ensures k < |peers| ==> peers[k] in results && results[peers[k]].term > term
    ensures forall i :: 0 <= i < k ==> !(peers[i] in results && results[peers[i]].term > term)
  {
    if peers == [] || (peers[0] in results && results[peers[0]].term > term) then 0
    else 1 + FirstNewer(peers[1..], results, term)
  }

  function Granters(peers: seq<NodeId>, results: map<NodeId, VoteResponse>): set<NodeId> {
    set p | p in peers && p in results && results[p].granted
  }

  function Uniform(peers: seq<NodeId>, value: int): (m: map<NodeId, int>)
    ensures forall p :: p in m <==> p in peers
    ensures forall p {:trigger m[p]} :: p in m ==> m[p] == value
  {
    if peers == [] then map[] else Uniform(peers[..|peers| - 1], value)[peers[|peers| - 1] := value]
  }

  function BecomeLeader(s: NodeState, me: NodeId, peers: seq<NodeId>): NodeState {
    s.(role := Leader, currentLeader := Some(me),
       nextIndex := s.nextIndex + Uniform(peers, |s.log|),
       matchIndex := s.matchIndex + Uniform(peers, -1))
  }

  /** The election's second half: runs once the votes are in, and rechecks role and term first. */
  function CollectVotes(
    s: NodeState, me: NodeId, peers: seq<NodeId>, term: nat, results: map<NodeId, VoteResponse>): NodeState {
    if s.role != Candidate || s.currentTerm != term then s
    else
      var k := FirstNewer(peers, results, term);
      var counted := s.(votesReceived := s.votesReceived + Granters(peers[..k], results));
      if k < |peers| then StepDown(counted, results[peers[k]].term)
      else if |counted.votesReceived| >= Majority(peers) then BecomeLeader(counted, me, peers)
      else counted
  }

  predicate LogUpToDate(req: VoteRequest, log: Log) {
    req.lastLogTerm > LastTerm(log) || (req.lastLogTerm == LastTerm(log) && req.lastLogIndex >= |log| - 1)
  }

  /** The vote decision of a node whose term already is at least the request's. */
  function Vote(s: NodeState, req: VoteRequest): (NodeState, VoteResponse) {
    if req.term == s.currentTerm && s.votedFor in {None, Some(req.candidate)} && LogUpToDate(req, s.log)
    then (s.(votedFor := Some(req.candidate)), VoteResponse(s.currentTerm, true))
    else (s, VoteResponse(s.currentTerm, false))
  }

  function CatchUp(s: NodeState, term: nat): NodeState {
    if term > s.currentTerm then StepDown(s, term) else s
  }

  function HandleVote(s: NodeState, req: VoteRequest): (NodeState, VoteResponse) {
    Vote(CatchUp(s, req.term), req)
  }

  // ---- Replication ----

  function NextOf(s: NodeState, peer: NodeId): int {
    if peer in s.nextIndex then s.nextIndex[peer] else |s.log|
  }

  function MatchOf(s: NodeState, peer: NodeId): int {
    if peer in s.matchIndex then s.matchIndex[peer] else -1
  }

  /** The request carries the whole suffix of the leader's log from `next` on. */
  function AppendRequestOf(s: NodeState, me: NodeId, peer: NodeId): AppendRequest
    requires 0 <= NextOf(s, peer) <= |s.log|
  {
    var next := NextOf(s, peer);
    AppendRequest(s.currentTerm, me, next - 1, if next > 0 then s.log[next - 1].term else 0, s.log[next..],
      s.commitIndex)
  }

  /** How many leading entries the log already holds, position by position, with the same term. */
  function Agreeing(log: Log, at: nat, entries: Log): (k: nat)
    ensures k <= |entries|
    ensures forall i :: 0 <= i < k ==> at + i < |log| && log[at + i].term == entries[i].term
    ensures k < |entries| && at + k < |log| ==> log[at + k].term != entries[k].term
    ensures at <= |log| ==> at + k <= |log|
    decreases entries
  {
    if entries == [] || at >= |log| || log[at].term != entries[0].term then 0
    else 1 + Agreeing(log, at + 1, entries[1..])
  }

  /** Only a conflicting or missing entry cuts the log: what agrees is kept, and so is a longer log. */
  function Merge(log: Log, at: nat, entries: Log): Log
    requires at <= |log|
  {
    var k := Agreeing(log, at, entries);
    if k == |entries| then log else log[..at + k] + entries[k..]
  }

  function Min(a: int, b: int): int { if a <= b then a else b }
  function Max(a: int, b: int): int { if a <= b then b else a }

  function Heard(s: NodeState, leader: NodeId): NodeState {
    s.(currentLeader := Some(leader), role := if s.role == Candidate then Follower else s.role)
  }

  function Absorb(s: NodeState, req: AppendRequest): NodeState
    requires -1 <= req.prevLogIndex < |s.log|
  {
    var log := Merge(s.log, req.prevLogIndex + 1, req.entries);
    s.(log := log,
       commitIndex := if req.leaderCommit > s.commitIndex then Min(req.leaderCommit, |log| - 1) else s.commitIndex)
  }

  /** The append handler of a node whose term equals the request's. */
  function AppendAtTerm(s: NodeState, req: AppendRequest): (NodeState, AppendResponse)
    requires -1 <= req.prevLogIndex
  {
    var heard := Heard(s, req.leader);
    var prev := req.prevLogIndex;
    if prev >= |s.log| then (heard, AppendResponse(s.currentTerm, false))
    else if prev >= 0 && s.log[prev].term != req.prevLogTerm then
      (heard.(log := s.log[..prev]), AppendResponse(s.currentTerm, false))
    else (Absorb(heard, req), AppendResponse(s.currentTerm, true))
  }

  function HandleAppend(s: NodeState, req: AppendRequest): (NodeState, AppendResponse)
    requires -1 <= req.prevLogIndex
  {
    if req.term < s.currentTerm then (s, AppendResponse(s.currentTerm, false))
    else AppendAtTerm(CatchUp(s, req.term), req)
  }

  /** The leader's side of one answered request. */
  function HandleReply(s: NodeState, peer: NodeId, req: AppendRequest, resp: AppendResponse): NodeState {
    if resp.term > s.currentTerm then StepDown(s, resp.term)
    else if s.role != Leader then s
    else if resp.success then
      var reached := req.prevLogIndex + |req.entries|;
      s.(matchIndex := s.matchIndex[peer := Max(MatchOf(s, peer), reached)],
         nextIndex := s.nextIndex[peer := reached + 1])
    else s.(nextIndex := s.nextIndex[peer := Max(0, req.prevLogIndex)])
  }

  // ---- Commitment ----

  function Ackers(s: NodeState, n: int): set<NodeId> {
    set p | p in s.matchIndex && s.matchIndex[p] >= n
  }

  predicate Quorate(s: NodeState, peers: seq<NodeId>, n: int)
    requires 0 <= n < |s.log|
  {
    s.log[n].term == s.currentTerm && 1 + |Ackers(s, n)| >= Majority(peers)
  }

  /** The newest index in (commitIndex, n] that a majority holds with an entry of the current term. */
  function NewestQuorate(s: NodeState, peers: seq<NodeId>, n: int): (r: int)
    requires -1 <= s.commitIndex && n < |s.log|
    ensures r == s.commitIndex || (s.commitIndex < r <= n && Quorate(s, peers, r))
    ensures forall m :: r < m <= n && m > s.commitIndex ==> !Quorate(s, peers, m)
    decreases n - s.commitIndex
  {
    if n <= s.commitIndex then s.commitIndex
    else if Quorate(s, peers, n) then n
    else NewestQuorate(s, peers, n - 1)
  }

  function Resolve(s: NodeState, n: int): NodeState {
    if n in s.pending && !s.pending[n].done then
      s.(pending := s.pending[n := s.pending[n].(done := true)],
         answers := s.answers + [Answer(n, s.pending[n].entry)])
    else s
  }

  function AdvanceCommit(s: NodeState, peers: seq<NodeId>): NodeState
    requires -1 <= s.commitIndex
  {
    if s.role != Leader then s
    else
      var n := NewestQuorate(s, peers, |s.log| - 1);
      if n == s.commitIndex then s else Resolve(s.(commitIndex := n), n)
  }

  // ---- Clients ----

  function AppendCommand(s: NodeState, command: Command): (NodeState, ClientReply) {
    if s.role != Leader then (s, NotLeader(s.currentLeader))
    else
      var entry := LogEntry(s.currentTerm, |s.log|, command);
      (s.(log := s.log + [entry], pending := s.pending[|s.log| := Future(entry, false)]), Accepted(entry))
  }

  /** A client call gives up waiting. */
  function GiveUp(s: NodeState, n: int): NodeState {
    if n in s.pending then s.(pending := s.pending[n := s.pending[n].(done := true)]) else s
  }

  /**
    One pass of the apply loop as written: `last_applied` moves up to the commit index, but the callback runs
    once, after the loop, on whatever entry the loop variable holds.
   */
  function ApplyPass(s: NodeState): NodeState
    requires s.commitIndex < |s.log| && -1 <= s.lastApplied
  {
    if s.lastApplied < s.commitIndex then
      var entry := s.log[s.commitIndex];
      s.(lastApplied := s.commitIndex, held := Some(entry), delivered := s.delivered + [entry])
    else if s.held.Some? then s.(delivered := s.delivered + [s.held.value])
    else s
  }

  /** What a pass should hand to the callback: every entry it moves `last_applied` past, in order. */
  function NewlyApplied(s: NodeState): Log
    requires -1 <= s.lastApplied <= s.commitIndex < |s.log|
  {
    s.log[s.lastApplied + 1..s.commitIndex + 1]
  }
}
