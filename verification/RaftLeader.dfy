/**
  The leader's own steps keep the invariant: client appends, requests, replies and commitment.
  A quorum of match indices is shown to be a quorum of acknowledgements.
 */
module RaftLeader {
  import opened RaftSpec
  import opened RaftCluster
  import opened RaftInvariant
  import opened RaftStability
  import opened RaftSteps
  import opened RaftElection
  import opened Quorums

  // ---- A client command enters the leader's log ----

  ghost predicate Extends(c: Cluster, h: History, v: NodeId, entry: LogEntry, c': Cluster, h': History) {
    && v in c.nodes && Moves(c, c', v, {})
    && var s := c.nodes[v];
    var t := s.currentTerm;
    && s.role == Leader && entry.term == t && entry.index == |s.log|
    && c'.nodes[v] == s.(log := s.log + [entry], pending := s.pending[|s.log| := Future(entry, false)])
    && h' == h.(termLog := h.termLog[t := s.log + [entry]], ack := h.ack[At(t, v) := |s.log|])
  }

  lemma LeaderFacts(c: Cluster, h: History, v: NodeId)
    requires Inv(c, h) && v in c.nodes && c.nodes[v].role == Leader
    ensures var s := c.nodes[v]; var t := s.currentTerm;
      && t in h.leaderOf && h.leaderOf[t] == v && t in h.termLog && h.termLog[t] == s.log && t >= 1
      && Acked(h, At(t, v)) == |s.log| - 1 && SameTerms(h)
  {
    Know(c, h, LeadershipOf(v));
    Know(c, h, Configuration);
    Know(c, h, ElectionOf(c.nodes[v].currentTerm));
    Know(c, h, PeersOf(v));
    TermPositive(c, h, c.nodes[v].currentTerm);
  }

  lemma TermPositive(c: Cluster, h: History, t: nat)
    requires Inv(c, h) && t in h.leaderOf
    ensures t >= 1
  {
    Know(c, h, Configuration);
    Know(c, h, ElectionOf(t));
    var x := QuorumsMeet(c.nodes.Keys, h.electors[t], h.electors[t]);
    assert VotedFor(h, t, x, h.leaderOf[t]);
    Know(c, h, VoteOf(At(t, x)));
    Know(c, h, CandidacyOf(At(t, h.leaderOf[t])));
  }

  lemma ExtendEvolves(c: Cluster, h: History, v: NodeId, entry: LogEntry, c': Cluster, h': History)
    requires Inv(c, h) && Extends(c, h, v, entry, c', h')
    ensures Evolves(c, h, c', h')
  {
    LeaderFacts(c, h, v);
  }

  lemma ExtendKeeps(c: Cluster, h: History, v: NodeId, entry: LogEntry, c': Cluster, h': History)
    requires Inv(c, h) && Extends(c, h, v, entry, c', h')
    ensures Inv(c', h') && Evolves(c, h, c', h')
  {
    ExtendEvolves(c, h, v, entry, c', h');
    EvolvesGrows(c, h, c', h');
    forall x ensures Holds(c', h', x) {
      if x.Sent? || (AboutNodes(x) && x.v != v) {
        RestKept(c, h, c', h', v, {}, x);
      } else if AboutNodes(x) {
        ExtendNode(c, h, v, entry, c', h', x);
      } else if AboutCompleteness(x) {
        ExtendComplete(c, h, v, entry, c', h', x);
      } else {
        ExtendRecord(c, h, v, entry, c', h', x);
      }
    }
  }

  lemma ExtendGenuine(c: Cluster, h: History, v: NodeId, entry: LogEntry, c': Cluster, h': History)
    requires Inv(c, h) && Extends(c, h, v, entry, c', h') && Grows(h, h')
    ensures Genuine(h', c'.nodes[v].log)
  {
    var s, log := c.nodes[v], c'.nodes[v].log;
    Know(c, h, LogOf(v));
    GenuineStable(h, h', s.log);
    forall i | 0 <= i < |log|
      ensures log[i].term in h'.termLog && Agree(log, h'.termLog[log[i].term], i + 1)
    {
      if i < |s.log| { assert Agree(s.log, h'.termLog[s.log[i].term], i + 1); }
    }
  }

  lemma ExtendNode(c: Cluster, h: History, v: NodeId, entry: LogEntry, c': Cluster, h': History, x: Clause)
    requires Inv(c, h) && Extends(c, h, v, entry, c', h') && Grows(h, h') && AboutNode(x, v)
    ensures Holds(c', h', x)
  {
    NodeFacts(c, h, v);
    LeaderFacts(c, h, v);
    ExtendGenuine(c, h, v, entry, c', h');
    ExtendClients(c, h, v, entry, c', h');
    ExtendState(c.nodes.Keys, h, v, c.nodes[v], c'.nodes[v], h');
    ExtendPeers(c.nodes.Keys, h, v, c.nodes[v], c'.nodes[v], h');
  }

  ghost predicate SameOffice(s: NodeState, s': NodeState) {
    && s'.currentTerm == s.currentTerm && s'.votedFor == s.votedFor && s.role == s'.role == Leader
    && s'.matchIndex == s.matchIndex && s'.nextIndex == s.nextIndex
    && s'.commitIndex == s.commitIndex && s'.lastApplied == s.lastApplied
    && |s'.log| == |s.log| + 1 && s'.log[..|s.log|] == s.log
  }

  lemma ExtendState(members: set<NodeId>, h: History, v: NodeId, s: NodeState, s': NodeState, h': History)
    requires SameOffice(s, s') && Grows(h, h') && Genuine(h', s'.log) && s'.log[|s.log|].term == s.currentTerm
    requires VoterOk(h, v, s) && LeaderOk(h, v, s) && LogOk(h, s) && CommitOk(members, h, s)
    ensures VoterOk(h', v, s') && CampaignOk(members, h', v, s') && LeaderOk(h', v, s')
    ensures LogOk(h', s') && CommitOk(members, h', s')
  {
    assert GrowsAt(h, h', s.currentTerm, v);
    assert Agree(s.log, s'.log, |s.log|) by {
      forall j | 0 <= j < |s.log| ensures s.log[j] == s'.log[j] { assert s'.log[..|s.log|][j] == s'.log[j]; }
    }
    CommittedStable(members, h, h', s.currentTerm, s.currentTerm, s.log, s'.log, s.commitIndex + 1);
  }

  lemma ExtendPeers(members: set<NodeId>, h: History, v: NodeId, s: NodeState, s': NodeState, h': History)
    requires SameOffice(s, s') && Grows(h, h') && PeersOk(members, h, v, s)
    requires Acked(h', At(s.currentTerm, v)) == |s.log|
    ensures PeersOk(members, h', v, s')
  {
    forall p | p in s'.matchIndex ensures s'.matchIndex[p] <= Acked(h', At(s'.currentTerm, p)) {
      assert GrowsAt(h, h', s.currentTerm, p);
    }
  }

  lemma ExtendClients(c: Cluster, h: History, v: NodeId, entry: LogEntry, c': Cluster, h': History)
    requires Inv(c, h) && Extends(c, h, v, entry, c', h') && Grows(h, h')
    ensures ClientOk(c.nodes.Keys, h', c'.nodes[v])
  {
    Know(c, h, ClientsOf(v));
    AnswersStable(c.nodes.Keys, h, h', c.nodes[v], c'.nodes[v]);
  }

  lemma ExtendRecord(c: Cluster, h: History, v: NodeId, entry: LogEntry, c': Cluster, h': History, x: Clause)
    requires Inv(c, h) && Extends(c, h, v, entry, c', h') && Evolves(c, h, c', h') && Grows(h, h') && AboutRecord(x)
    ensures Holds(c', h', x)
  {
    match x
    case Configuration => ExtendConfiguration(c, h, v, entry, c', h');
    case CandidacyOf(k) => Know(c, h, x); CandidacyKept(c, h, c', h', k);
    case LogOfTerm(t) => ExtendLog(c, h, v, entry, c', h', t);
    case ElectionOf(t) => ExtendElection(c, h, v, entry, c', h', t);
    case VoteOf(k) => ExtendVote(c, h, v, entry, c', h', k);
    case AckOf(k) => ExtendAck(c, h, v, entry, c', h', k);
  }

  lemma ExtendConfiguration(c: Cluster, h: History, v: NodeId, entry: LogEntry, c': Cluster, h': History)
    requires Inv(c, h) && Extends(c, h, v, entry, c', h')
    ensures Holds(c', h', Configuration)
  {
    LeaderFacts(c, h, v);
    ConfigurationKept(c, h, c', h');
  }

  lemma ExtendVote(c: Cluster, h: History, v: NodeId, entry: LogEntry, c': Cluster, h': History, k: At)
    requires Inv(c, h) && Extends(c, h, v, entry, c', h')
    ensures VoteOk(c', h', k)
  {
    Know(c, h, VoteOf(k));
  }

  lemma ExtendElection(c: Cluster, h: History, v: NodeId, entry: LogEntry, c': Cluster, h': History, t: nat)
    requires Inv(c, h) && Extends(c, h, v, entry, c', h')
    ensures TermOk(c', h', t)
  {
    LeaderFacts(c, h, v);
    Know(c, h, ElectionOf(t));
  }

  lemma ExtendAck(c: Cluster, h: History, v: NodeId, entry: LogEntry, c': Cluster, h': History, k: At)
    requires Inv(c, h) && Extends(c, h, v, entry, c', h')
    ensures AckOk(c', h', k)
  {
    LeaderFacts(c, h, v);
    Know(c, h, AckOf(k));
  }

  lemma ExtendLog(c: Cluster, h: History, v: NodeId, entry: LogEntry, c': Cluster, h': History, t: nat)
    requires Inv(c, h) && Extends(c, h, v, entry, c', h') && Grows(h, h')
    ensures TermLogOk(h', t)
  {
    LeaderFacts(c, h, v);
    Know(c, h, LogOfTerm(t));
    if t == c.nodes[v].currentTerm {
      ExtendGenuine(c, h, v, entry, c', h');
    } else {
      TermLogKept(h, h', t);
    }
  }

  /** Nobody but the leader has acknowledged the new entry, and a later term's voters never will. */
  lemma ExtendPotential(c: Cluster, h: History, v: NodeId, entry: LogEntry, c': Cluster, h': History, t: nat, n: int)
    requires Inv(c, h) && Extends(c, h, v, entry, c', h') && Evolves(c, h, c', h') && Potential(c', h', t, n)
    ensures Potential(c, h, t, n) || (t == c.nodes[v].currentTerm && n == |c.nodes[v].log|)
    ensures Potential(c, h, t, n) ==> n < |h.termLog[t]|
    ensures t == c.nodes[v].currentTerm && n == |c.nodes[v].log| ==>
              (forall p :: n <= Acked(h', At(t, p)) ==> p == v) && (forall u :: u in h.leaderOf ==> u <= t)
  {
    LeaderFacts(c, h, v);
    var T, N := c.nodes[v].currentTerm, |c.nodes[v].log|;
    if t == T && n == N {
      forall p | n <= Acked(h', At(t, p)) ensures p == v {
        Know(c, h, AckOf(At(t, p)));
      }
      forall u | u in h.leaderOf ensures u <= t {
        if u > t { LaterTermSettled(c, h, v, c', h', u, n); }
      }
    } else {
      assert OwnEntry(h, t, n);
      PotentialBack(c, h, c', h', t, n);
    }
  }

  /** A later term's voters have left the term, so without their acknowledgement no quorum remains. */
  lemma LaterTermSettled(c: Cluster, h: History, v: NodeId, c': Cluster, h': History, u: nat, n: int)
    requires Inv(c, h) && v in c.nodes && Evolves(c, h, c', h') && u in h.leaderOf && u > c.nodes[v].currentTerm
    requires v in c'.nodes && c'.nodes[v].currentTerm == c.nodes[v].currentTerm
    requires forall p :: n <= Acked(h', At(c.nodes[v].currentTerm, p)) ==> p == v
    ensures !Potential(c', h', c.nodes[v].currentTerm, n)
  {
    var T := c.nodes[v].currentTerm;
    EvolvesGrows(c, h, c', h');
    Know(c, h, Configuration);
    Know(c, h, ElectionOf(u));
    if Potential(c', h', T, n) {
      var q :| Quorum(c'.nodes.Keys, q) && MayAck(c', h', q, T, n);
      var x := QuorumsMeet(c.nodes.Keys, q, h.electors[u]);
      assert n <= Acked(h', At(T, x)) || c'.nodes[x].currentTerm <= T;
      assert EvolvesAt(c, h, c', h', T, x);
      Know(c, h, VoteOf(At(u, x)));
    }
  }

  lemma ExtendComplete(c: Cluster, h: History, v: NodeId, entry: LogEntry, c': Cluster, h': History, x: Clause)
    requires Inv(c, h) && Extends(c, h, v, entry, c', h') && Evolves(c, h, c', h') && AboutCompleteness(x)
    ensures Holds(c', h', x)
  {
    match x
    case LeaderHolds(t, n, u) => ExtendLeader(c, h, v, entry, c', h', t, n, u);
    case AckerHolds(t, n, w) =>
      if Potential(c', h', t, n) { ExtendAcker(c, h, v, entry, c', h', t, n, w); }
    case VoterHolds(t, n, k) =>
      if Potential(c', h', t, n) { ExtendVoter(c, h, v, entry, c', h', t, n, k); }
  }

  lemma ExtendLeader(
    c: Cluster, h: History, v: NodeId, entry: LogEntry, c': Cluster, h': History, t: nat, n: int, u: nat)
    requires Inv(c, h) && Extends(c, h, v, entry, c', h') && Evolves(c, h, c', h')
    ensures LeaderComplete(c', h', t, n, u)
  {
    if Potential(c', h', t, n) {
      LeaderFacts(c, h, v);
      ExtendPotential(c, h, v, entry, c', h', t, n);
      Know(c, h, LeaderHolds(t, n, u));
    }
  }

  lemma ExtendAcker(
    c: Cluster, h: History, v: NodeId, entry: LogEntry, c': Cluster, h': History, t: nat, n: int, w: NodeId)
    requires Inv(c, h) && Extends(c, h, v, entry, c', h') && Evolves(c, h, c', h') && Potential(c', h', t, n)
    ensures AckerComplete(c', h', t, n, w)
  {
    LeaderFacts(c, h, v);
    ExtendPotential(c, h, v, entry, c', h', t, n);
    Know(c, h, AckerHolds(t, n, w));
  }

  lemma ExtendVoter(c: Cluster, h: History, v: NodeId, entry: LogEntry, c': Cluster, h': History, t: nat, n: int, k: At)
    requires Inv(c, h) && Extends(c, h, v, entry, c', h') && Evolves(c, h, c', h') && Potential(c', h', t, n)
    ensures VoterComplete(c', h', t, n, k)
  {
    LeaderFacts(c, h, v);
    ExtendPotential(c, h, v, entry, c', h', t, n);
    Know(c, h, VoterHolds(t, n, k));
    Know(c, h, VoteOf(k));
  }

  // ---- Requests and replies ----

  lemma RequestOk(c: Cluster, h: History, v: NodeId, peer: NodeId)
    requires Inv(c, h) && v in c.nodes && c.nodes[v].role == Leader && peer in c.nodes && peer != v
    requires 0 <= NextOf(c.nodes[v], peer) <= |c.nodes[v].log|
    ensures AppendOk(c.nodes.Keys, h, peer, AppendRequestOf(c.nodes[v], v, peer))
  {
    LeaderFacts(c, h, v);
    Know(c, h, CommitOf(v));
  }

  lemma ReplyNode(c: Cluster, h: History, v: NodeId, peer: NodeId, req: AppendRequest, resp: AppendResponse)
    requires Inv(c, h) && Enabled(c, ReceiveReply(v, peer, req, resp)) && resp.term <= c.nodes[v].currentTerm
    ensures PeersOk(c.nodes.Keys, h, v, HandleReply(c.nodes[v], peer, req, resp))
  {
    Know(c, h, PeersOf(v));
    Know(c, h, Sent(AppendAnswer(req, peer, resp)));
    LeaderFacts(c, h, v);
  }

  // ---- Commitment ----

  /** A majority's match indices and the leader itself make a quorum of acknowledgements. */
  lemma QuorateChosen(c: Cluster, h: History, v: NodeId, n: int)
    requires Inv(c, h) && v in c.nodes && c.nodes[v].role == Leader && v in c.peers
    requires 0 <= n < |c.nodes[v].log| && Quorate(c.nodes[v], c.peers[v], n)
    ensures Chosen(c.nodes.Keys, h, c.nodes[v].currentTerm, n)
  {
    var s := c.nodes[v];
    LeaderFacts(c, h, v);
    Know(c, h, PeersOf(v));
    Know(c, h, Configuration);
    assert KnowsPeers(c, v);
    var q := {v} + Ackers(s, n);
    assert v !in Ackers(s, n);
    assert AllAcked(h, q, s.currentTerm, n);
    assert Quorum(c.nodes.Keys, q);
  }

  lemma CommitNode(c: Cluster, h: History, v: NodeId)
    requires Inv(c, h) && v in c.nodes && v in c.peers && -1 <= c.nodes[v].commitIndex
    ensures CommitOk(c.nodes.Keys, h, AdvanceCommit(c.nodes[v], c.peers[v]))
    ensures ClientOk(c.nodes.Keys, h, AdvanceCommit(c.nodes[v], c.peers[v]))
  {
    var s := c.nodes[v];
    var s' := AdvanceCommit(s, c.peers[v]);
    Know(c, h, CommitOf(v));
    Know(c, h, ClientsOf(v));
    if s.role == Leader {
      var n := NewestQuorate(s, c.peers[v], |s.log| - 1);
      if n != s.commitIndex {
        QuorateChosen(c, h, v, n);
        LeaderFacts(c, h, v);
        CommitAnswers(c, h, v, n);
      }
    }
  }

  lemma CommitAnswers(c: Cluster, h: History, v: NodeId, n: int)
    requires Inv(c, h) && v in c.nodes && c.nodes[v].role == Leader
    requires Chosen(c.nodes.Keys, h, c.nodes[v].currentTerm, n)
    requires c.nodes[v].commitIndex < n < |c.nodes[v].log| && c.nodes[v].log[n].term == c.nodes[v].currentTerm
    ensures ClientOk(c.nodes.Keys, h, Resolve(c.nodes[v].(commitIndex := n), n))
  {
    var s := c.nodes[v];
    var s' := Resolve(s.(commitIndex := n), n);
    Know(c, h, ClientsOf(v));
    LeaderFacts(c, h, v);
    assert n in s.pending && s.pending[n].entry == s.log[n];
    assert ChosenEntry(c.nodes.Keys, h, s.currentTerm, n, s.log[n]);
    forall i | 0 <= i < |s'.answers|
      ensures AnswerOk(c.nodes.Keys, h, s', s'.answers[i])
    {
      if i < |s.answers| { assert AnswerOk(c.nodes.Keys, h, s, s.answers[i]); }
    }
  }
}
