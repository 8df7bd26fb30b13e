/**
  What every reachable cluster satisfies.  The invariant speaks of a `History`: values the protocol never
  reads, kept only to state what happened (who was elected by whom, what each term's leader wrote, how far
  each node acknowledged it).  `Record` computes it from the steps, so it restricts no run.
 */
module RaftInvariant {
  import opened Wrappers
  import opened RaftSpec
  import opened RaftCluster
  import opened Quorums

  /** A node in a term. */
  datatype At = At(term: nat, node: NodeId)

  datatype History = History(
    leaderOf: map<nat, NodeId>,        // who won the election of a term
    electors: map<nat, set<NodeId>>,   // whose votes the winner counted
    termLog: map<nat, Log>,            // the log of the term's leader, as far as it grew in that term
    candLog: map<At, Log>,             // a candidate's log when it started its election
    vote: map<At, NodeId>,             // whom a node voted for in a term
    ack: map<At, int>)                 // the last index a node acknowledged in a term

  const NO_HISTORY := History(map[], map[], map[], map[], map[], map[])

  function Acked(h: History, k: At): int {
    if k in h.ack then h.ack[k] else -1
  }

  ghost function Record(c: Cluster, h: History, step: Step): History
    requires Enabled(c, step)
  {
    var v := step.node;
    var s := c.nodes[v];
    match step
    case Timeout(_) =>
      var k := At(s.currentTerm + 1, v);
      h.(vote := h.vote[k := v], candLog := h.candLog[k := s.log])
    case Collect(_, ask, results) =>
      var s' := CollectVotes(s, v, c.peers[v], ask.term, results);
      if s.role == Candidate && s'.role == Leader then RecordWin(h, v, s') else h
    case ReceiveVote(_, ask) =>
      if HandleVote(s, ask).1.granted then h.(vote := h.vote[At(ask.term, v) := ask.candidate]) else h
    case ReceiveAppend(_, append) =>
      if HandleAppend(s, append).1.success then RecordAck(h, v, append) else h
    case Client(_, command) =>
      if s.role == Leader then RecordAppend(h, v, AppendCommand(s, command).0) else h
    case _ => h
  }

  function RecordWin(h: History, v: NodeId, s: NodeState): History {
    var t := s.currentTerm;
    h.(leaderOf := h.leaderOf[t := v], electors := h.electors[t := s.votesReceived],
       termLog := h.termLog[t := s.log], ack := h.ack[At(t, v) := |s.log| - 1])
  }

  function RecordAck(h: History, v: NodeId, req: AppendRequest): History {
    var k := At(req.term, v);
    h.(ack := h.ack[k := Max(Acked(h, k), req.prevLogIndex + |req.entries|)])
  }

  function RecordAppend(h: History, v: NodeId, s: NodeState): History {
    h.(termLog := h.termLog[s.currentTerm := s.log], ack := h.ack[At(s.currentTerm, v) := |s.log| - 1])
  }

  // ---- Logs ----

  /** The two logs hold the same first n entries. */
  ghost predicate Agree(a: Log, b: Log, n: int) {
    n <= |a| && n <= |b| && forall j :: 0 <= j < n ==> a[j] == b[j]
  }

  /** Cut just after any entry, the log is a prefix of what that entry's leader wrote. */
  ghost predicate Genuine(h: History, log: Log) {
    forall i :: 0 <= i < |log| ==> log[i].term in h.termLog && Agree(log, h.termLog[log[i].term], i + 1)
  }

  ghost predicate Sorted(log: Log) {
    forall i, j :: 0 <= i < j < |log| ==> log[i].term <= log[j].term
  }

  ghost predicate TermsBelow(log: Log, bound: nat) {
    forall i :: 0 <= i < |log| ==> log[i].term < bound
  }

  ghost predicate Indexed(log: Log) {
    forall i :: 0 <= i < |log| ==> log[i].index == i && log[i].term >= 1
  }

  // ---- Commitment ----

  /** Index n of term t's log holds an entry its own leader appended in that term. */
  ghost predicate OwnEntry(h: History, t: nat, n: int) {
    t in h.termLog && 0 <= n < |h.termLog[t]| && h.termLog[t][n].term == t
  }

  ghost predicate AllAcked(h: History, q: set<NodeId>, t: nat, n: int) {
    forall v {:trigger At(t, v)} :: v in q ==> n <= Acked(h, At(t, v))
  }

  /** A quorum acknowledged an entry of the leader's own term. */
  ghost predicate Chosen(members: set<NodeId>, h: History, t: nat, n: int) {
    OwnEntry(h, t, n) && exists q {:trigger AllAcked(h, q, t, n)} :: Quorum(members, q) && AllAcked(h, q, t, n)
  }

  ghost predicate MayAck(c: Cluster, h: History, q: set<NodeId>, t: nat, n: int) {
    forall v {:trigger At(t, v)} :: v in q ==> v in c.nodes && (n <= Acked(h, At(t, v)) || c.nodes[v].currentTerm <= t)
  }

  /** Some quorum has acknowledged the entry or still could. */
  ghost predicate Potential(c: Cluster, h: History, t: nat, n: int) {
    OwnEntry(h, t, n) && exists q {:trigger MayAck(c, h, q, t, n)} :: Quorum(c.nodes.Keys, q) && MayAck(c, h, q, t, n)
  }

  /** The first k entries of the log were chosen by term t at the latest. */
  ghost predicate CommittedBy(members: set<NodeId>, h: History, t: nat, log: Log, k: int) {
    k <= 0 || exists u: nat, n :: u <= t && k <= n + 1 && Chosen(members, h, u, n) && Agree(log, h.termLog[u], k)
  }

  // ---- The invariant: one predicate for each node, term, vote, acknowledgement and message ----

  ghost predicate VoteOk(c: Cluster, h: History, k: At) {
    k in h.vote ==>
      && k.node in c.nodes && k.term <= c.nodes[k.node].currentTerm
      && At(k.term, h.vote[k]) in h.candLog
      && (k.term == c.nodes[k.node].currentTerm ==> c.nodes[k.node].votedFor == Some(h.vote[k]))
  }

  ghost predicate VotedFor(h: History, t: nat, p: NodeId, v: NodeId) {
    At(t, p) in h.vote && h.vote[At(t, p)] == v
  }

  ghost predicate VoterOk(h: History, v: NodeId, s: NodeState) {
    s.votedFor.Some? ==> VotedFor(h, s.currentTerm, v, s.votedFor.value)
  }

  ghost predicate CandidateOk(c: Cluster, h: History, k: At) {
    k in h.candLog ==>
      && k.node in c.nodes && 1 <= k.term <= c.nodes[k.node].currentTerm
      && Genuine(h, h.candLog[k]) && TermsBelow(h.candLog[k], k.term)
  }

  ghost predicate CampaignOk(members: set<NodeId>, h: History, v: NodeId, s: NodeState) {
    s.role == Candidate ==>
      && At(s.currentTerm, v) in h.candLog && h.candLog[At(s.currentTerm, v)] == s.log
      && s.votedFor == Some(v)
      && s.votesReceived <= members
      && forall p {:trigger p in s.votesReceived} :: p in s.votesReceived ==> VotedFor(h, s.currentTerm, p, v)
  }

  ghost predicate SameTerms(h: History) {
    h.leaderOf.Keys == h.electors.Keys == h.termLog.Keys
  }

  ghost predicate TermOk(c: Cluster, h: History, t: nat) {
    t in h.leaderOf && t in h.electors && t in h.termLog ==>
      && var leader := h.leaderOf[t];
      && leader in c.nodes && t <= c.nodes[leader].currentTerm
      && (t == c.nodes[leader].currentTerm ==> c.nodes[leader].role == Leader && c.nodes[leader].log == h.termLog[t])
      && Quorum(c.nodes.Keys, h.electors[t])
      && forall e {:trigger e in h.electors[t]} :: e in h.electors[t] ==> VotedFor(h, t, e, leader)
  }

  ghost predicate LeaderOk(h: History, v: NodeId, s: NodeState) {
    s.role == Leader ==> s.currentTerm in h.leaderOf && h.leaderOf[s.currentTerm] == v
  }

  ghost predicate TermLogOk(h: History, t: nat) {
    t in h.termLog ==>
      && Genuine(h, h.termLog[t]) && Sorted(h.termLog[t])
      && Indexed(h.termLog[t]) && TermsBelow(h.termLog[t], t + 1)
  }

  ghost predicate LogOk(h: History, s: NodeState) {
    Genuine(h, s.log) && TermsBelow(s.log, s.currentTerm + 1)
  }

  ghost predicate AckOk(c: Cluster, h: History, k: At) {
    k in h.ack ==>
      && k.node in c.nodes && k.term in h.termLog && k.term <= c.nodes[k.node].currentTerm
      && -1 <= h.ack[k] < |h.termLog[k.term]|
      && (k.term == c.nodes[k.node].currentTerm ==> Agree(h.termLog[k.term], c.nodes[k.node].log, h.ack[k] + 1))
  }

  ghost predicate PeersOk(members: set<NodeId>, h: History, v: NodeId, s: NodeState) {
    && s.matchIndex.Keys <= members - {v} && s.nextIndex.Keys <= members - {v}
    && (s.role == Leader ==>
          && (forall p {:trigger s.matchIndex[p]} :: p in s.matchIndex ==>
              s.matchIndex[p] <= Acked(h, At(s.currentTerm, p)))
          && (forall p {:trigger s.nextIndex[p]} :: p in s.nextIndex ==> 0 <= s.nextIndex[p] <= |s.log|)
          && Acked(h, At(s.currentTerm, v)) == |s.log| - 1)
  }

  ghost predicate CommitOk(members: set<NodeId>, h: History, s: NodeState) {
    && -1 <= s.lastApplied <= s.commitIndex < |s.log|
    && CommittedBy(members, h, s.currentTerm, s.log, s.commitIndex + 1)
  }

  /** The entry was chosen at index n by term t at the latest. */
  ghost predicate ChosenEntry(members: set<NodeId>, h: History, t: nat, n: int, entry: LogEntry) {
    exists u: nat {:trigger Chosen(members, h, u, n)} :: u <= t && Chosen(members, h, u, n) && h.termLog[u][n] == entry
  }

  ghost predicate AnswerOk(members: set<NodeId>, h: History, s: NodeState, a: Answer) {
    a.index <= s.commitIndex && ChosenEntry(members, h, s.currentTerm, a.index, a.entry)
  }

  ghost predicate ClientOk(members: set<NodeId>, h: History, s: NodeState) {
    && (s.role == Leader ==>
          forall n :: 0 <= n < |s.log| && s.log[n].term == s.currentTerm ==>
            n in s.pending && s.pending[n].entry == s.log[n])
    && forall i :: 0 <= i < |s.answers| ==> AnswerOk(members, h, s, s.answers[i])
  }

  ghost predicate CutFrom(entries: Log, log: Log, at: int) {
    && 0 <= at && at + |entries| <= |log|
    && forall i {:trigger entries[i]} :: 0 <= i < |entries| ==> entries[i] == log[at + i]
  }

  /** A request is a cut-out of its leader's log that reaches to where that log ended. */
  ghost predicate AppendOk(members: set<NodeId>, h: History, to: NodeId, req: AppendRequest) {
    && req.term in h.leaderOf && req.term in h.termLog && h.leaderOf[req.term] == req.leader
    && to in members && to != req.leader
    && -1 <= req.prevLogIndex && -1 <= req.leaderCommit <= req.prevLogIndex + |req.entries|
    && var log := h.termLog[req.term];
    && CutFrom(req.entries, log, req.prevLogIndex + 1)
    && (0 <= req.prevLogIndex < |log| ==> log[req.prevLogIndex].term == req.prevLogTerm)
    && CommittedBy(members, h, req.term, log, req.leaderCommit + 1)
  }

  ghost predicate MessageOk(members: set<NodeId>, h: History, m: Message) {
    match m
    case VoteAsk(ask) =>
      && At(ask.term, ask.candidate) in h.candLog
      && ask.lastLogIndex == |h.candLog[At(ask.term, ask.candidate)]| - 1
      && ask.lastLogTerm == LastTerm(h.candLog[At(ask.term, ask.candidate)])
    case VoteAnswer(ask, from, voted) =>
      voted.granted ==> from in members && VotedFor(h, ask.term, from, ask.candidate)
    case AppendAsk(to, append) => AppendOk(members, h, to, append)
    case AppendAnswer(append, from, appended) =>
      && AppendOk(members, h, from, append)
      && (appended.success ==>
            && appended.term == append.term
            && append.prevLogIndex + |append.entries| <= Acked(h, At(append.term, from)))
  }

  /** Leader completeness: what a quorum may have acknowledged is in every later leader's log. */
  ghost predicate LeaderComplete(c: Cluster, h: History, t: nat, n: int, u: nat) {
    u in h.termLog && t < u && Potential(c, h, t, n) ==> Agree(h.termLog[t], h.termLog[u], n + 1)
  }

  /** ... in the log of every node that acknowledged it, whatever term that node is in now ... */
  ghost predicate AckerComplete(c: Cluster, h: History, t: nat, n: int, v: NodeId) {
    v in c.nodes && n <= Acked(h, At(t, v)) && Potential(c, h, t, n) ==> Agree(h.termLog[t], c.nodes[v].log, n + 1)
  }

  /** ... and in the log of every candidate such a node voted for later. */
  ghost predicate VoterComplete(c: Cluster, h: History, t: nat, n: int, k: At) {
    k in h.vote && t < k.term && n <= Acked(h, At(t, k.node)) && Potential(c, h, t, n) ==>
      At(k.term, h.vote[k]) in h.candLog && Agree(h.termLog[t], h.candLog[At(k.term, h.vote[k])], n + 1)
  }

  /** The invariant, clause by clause. */
  datatype Clause =
    | Configuration
    | VoteOf(k: At) | CandidacyOf(k: At) | ElectionOf(t: nat) | LogOfTerm(t: nat) | AckOf(k: At)
    | BallotOf(v: NodeId) | CampaignOf(v: NodeId) | LeadershipOf(v: NodeId) | LogOf(v: NodeId)
    | PeersOf(v: NodeId) | CommitOf(v: NodeId) | ClientsOf(v: NodeId)
    | Sent(m: Message)
    | LeaderHolds(t: nat, n: int, u: nat) | AckerHolds(t: nat, n: int, v: NodeId) | VoterHolds(t: nat, n: int, k: At)

  ghost predicate Holds(c: Cluster, h: History, x: Clause) {
    var members := c.nodes.Keys;
    match x
    case Configuration => WellFormed(c) && SameTerms(h)
    case VoteOf(k) => VoteOk(c, h, k)
    case CandidacyOf(k) => CandidateOk(c, h, k)
    case ElectionOf(t) => TermOk(c, h, t)
    case LogOfTerm(t) => TermLogOk(h, t)
    case AckOf(k) => AckOk(c, h, k)
    case BallotOf(v) => v in c.nodes ==> VoterOk(h, v, c.nodes[v])
    case CampaignOf(v) => v in c.nodes ==> CampaignOk(members, h, v, c.nodes[v])
    case LeadershipOf(v) => v in c.nodes ==> LeaderOk(h, v, c.nodes[v])
    case LogOf(v) => v in c.nodes ==> LogOk(h, c.nodes[v])
    case PeersOf(v) => v in c.nodes ==> PeersOk(members, h, v, c.nodes[v])
    case CommitOf(v) => v in c.nodes ==> CommitOk(members, h, c.nodes[v])
    case ClientsOf(v) => v in c.nodes ==> ClientOk(members, h, c.nodes[v])
    case Sent(m) => m in c.net ==> MessageOk(members, h, m)
    case LeaderHolds(t, n, u) => LeaderComplete(c, h, t, n, u)
    case AckerHolds(t, n, v) => AckerComplete(c, h, t, n, v)
    case VoterHolds(t, n, k) => VoterComplete(c, h, t, n, k)
  }

  ghost predicate Inv(c: Cluster, h: History) {
    forall x :: Holds(c, h, x)
  }

  lemma Know(c: Cluster, h: History, x: Clause)
    requires Inv(c, h)
    ensures Holds(c, h, x)
  {
  }
}
