/**
  Elections keep the invariant: starting one, voting in one, winning one.  For each there is a predicate that says
  what changes, a lemma that puts the clauses together, and one lemma for each group of clauses.
 */
module RaftElection {
  import opened Wrappers
  import opened RaftSpec
  import opened RaftCluster
  import opened RaftInvariant
  import opened RaftStability
  import opened RaftSteps
  import opened Quorums

  /** Clauses about terms, candidacies and acknowledgements that adding votes or candidacies leaves alone. */
  lemma TermLogKept(h: History, h': History, t: nat)
    requires Grows(h, h') && TermLogOk(h, t) && (t in h'.termLog ==> t in h.termLog && h'.termLog[t] == h.termLog[t])
    ensures TermLogOk(h', t)
  {
    if t in h'.termLog { GenuineStable(h, h', h'.termLog[t]); }
  }

  lemma CandidacyKept(c: Cluster, h: History, c': Cluster, h': History, k: At)
    requires Evolves(c, h, c', h') && CandidateOk(c, h, k) && (k in h'.candLog ==>
        k in h.candLog && h'.candLog[k] == h.candLog[k])
    ensures CandidateOk(c', h', k)
  {
    EvolvesGrows(c, h, c', h');
    assert EvolvesAt(c, h, c', h', k.term, k.node);
    if k in h'.candLog { GenuineStable(h, h', h'.candLog[k]); }
  }

  /** The state facts of one node, gathered. */
  lemma NodeFacts(c: Cluster, h: History, v: NodeId)
    requires Inv(c, h) && v in c.nodes
    ensures VoterOk(h, v, c.nodes[v]) && CampaignOk(c.nodes.Keys, h, v, c.nodes[v]) && LeaderOk(h, v, c.nodes[v])
    ensures LogOk(h, c.nodes[v]) && PeersOk(c.nodes.Keys, h, v, c.nodes[v])
    ensures CommitOk(c.nodes.Keys, h, c.nodes[v]) && ClientOk(c.nodes.Keys, h, c.nodes[v])
  {
    Know(c, h, BallotOf(v)); Know(c, h, CampaignOf(v)); Know(c, h, LeadershipOf(v));
    Know(c, h, LogOf(v)); Know(c, h, PeersOf(v)); Know(c, h, CommitOf(v)); Know(c, h, ClientsOf(v));
  }

  // ---- Starting an election ----

  ghost predicate Campaigns(c: Cluster, h: History, v: NodeId, c': Cluster, h': History, sent: set<Message>) {
    && v in c.nodes && c.nodes[v].role != Leader
    && var s := c.nodes[v];
    var k := At(s.currentTerm + 1, v);
    && sent == {VoteAsk(VoteRequestOf(StartElection(s, v), v))}
    && Moves(c, c', v, sent) && c'.nodes[v] == StartElection(s, v)
    && h' == h.(vote := h.vote[k := v], candLog := h.candLog[k := s.log])
    && k !in h.vote && k !in h.candLog
  }

  lemma TimeoutKeeps(c: Cluster, h: History, v: NodeId)
    requires Inv(c, h) && Enabled(c, Timeout(v))
    ensures Inv(Do(c, Timeout(v)), Record(c, h, Timeout(v)))
    ensures Evolves(c, h, Do(c, Timeout(v)), Record(c, h, Timeout(v)))
  {
    var s' := StartElection(c.nodes[v], v);
    var sent := {VoteAsk(VoteRequestOf(s', v))};
    PutMoves(c, v, s', sent);
    var k := At(s'.currentTerm, v);
    Know(c, h, VoteOf(k)); Know(c, h, CandidacyOf(k));
    CampaignKeeps(c, h, v, Do(c, Timeout(v)), Record(c, h, Timeout(v)), sent);
  }

  lemma CampaignKeeps(c: Cluster, h: History, v: NodeId, c': Cluster, h': History, sent: set<Message>)
    requires Inv(c, h) && Campaigns(c, h, v, c', h', sent)
    ensures Inv(c', h') && Evolves(c, h, c', h')
  {
    assert Grows(h, h');
    forall x ensures Holds(c', h', x) {
      if x.Sent? || (AboutNodes(x) && x.v != v) {
        RestKept(c, h, c', h', v, sent, x);
      } else if AboutNodes(x) {
        CampaignNode(c, h, v, c', h', sent, x);
      } else if AboutCompleteness(x) {
        CampaignComplete(c, h, v, c', h', sent, x);
      } else {
        CampaignRecord(c, h, v, c', h', sent, x);
      }
    }
  }

  lemma CampaignNode(c: Cluster, h: History, v: NodeId, c': Cluster, h': History, sent: set<Message>, x: Clause)
    requires Inv(c, h) && Campaigns(c, h, v, c', h', sent) && Grows(h, h') && AboutNode(x, v)
    ensures Holds(c', h', x)
  {
    NodeFacts(c, h, v);
    var s, s' := c.nodes[v], c'.nodes[v];
    AnswersStable(c.nodes.Keys, h, h', s, s');
    CampaignState(c.nodes.Keys, h, v, s, s', h');
  }

  lemma CampaignState(members: set<NodeId>, h: History, v: NodeId, s: NodeState, s': NodeState, h': History)
    requires s' == StartElection(s, v) && Grows(h, h') && v in members
    requires At(s'.currentTerm, v) in h'.vote && h'.vote[At(s'.currentTerm, v)] == v
    requires At(s'.currentTerm, v) in h'.candLog && h'.candLog[At(s'.currentTerm, v)] == s.log
    requires LogOk(h, s) && CommitOk(members, h, s) && PeersOk(members, h, v, s)
    ensures VoterOk(h', v, s') && CampaignOk(members, h', v, s') && LeaderOk(h', v, s')
    ensures LogOk(h', s') && CommitOk(members, h', s') && PeersOk(members, h', v, s')
  {
    GenuineStable(h, h', s.log);
    CommittedStable(members, h, h', s.currentTerm, s'.currentTerm, s.log, s.log, s.commitIndex + 1);
  }

  lemma CampaignRecord(c: Cluster, h: History, v: NodeId, c': Cluster, h': History, sent: set<Message>, x: Clause)
    requires Inv(c, h) && Campaigns(c, h, v, c', h', sent) && Grows(h, h') && AboutRecord(x)
    ensures Holds(c', h', x)
  {
    match x
    case Configuration => Know(c, h, x); ConfigurationKept(c, h, c', h');
    case CandidacyOf(k) => CampaignCandidacy(c, h, v, c', h', sent, k);
    case ElectionOf(t) => CampaignElection(c, h, v, c', h', sent, t);
    case LogOfTerm(t) => Know(c, h, x); TermLogKept(h, h', t);
    case VoteOf(k) => CampaignVote(c, h, v, c', h', sent, k);
    case AckOf(k) => Know(c, h, x);
  }

  lemma CampaignCandidacy(c: Cluster, h: History, v: NodeId, c': Cluster, h': History, sent: set<Message>, k: At)
    requires Inv(c, h) && Campaigns(c, h, v, c', h', sent) && Grows(h, h')
    ensures CandidateOk(c', h', k)
  {
    Know(c, h, CandidacyOf(k));
    if k in h.candLog { CandidacyKept(c, h, c', h', k); }
    else { Know(c, h, LogOf(v)); GenuineStable(h, h', c.nodes[v].log); }
  }

  lemma CampaignElection(c: Cluster, h: History, v: NodeId, c': Cluster, h': History, sent: set<Message>, t: nat)
    requires Inv(c, h) && Campaigns(c, h, v, c', h', sent) && Grows(h, h')
    ensures TermOk(c', h', t)
  {
    Know(c, h, ElectionOf(t));
    if t in h.leaderOf { VotedForStable(h, h', t, h.leaderOf[t]); }
  }

  lemma CampaignVote(c: Cluster, h: History, v: NodeId, c': Cluster, h': History, sent: set<Message>, k: At)
    requires Inv(c, h) && Campaigns(c, h, v, c', h', sent)
    ensures VoteOk(c', h', k)
  {
    Know(c, h, VoteOf(k));
  }

  /** The candidate votes for itself, and holds whatever it acknowledged. */
  lemma CampaignComplete(c: Cluster, h: History, v: NodeId, c': Cluster, h': History, sent: set<Message>, x: Clause)
    requires Inv(c, h) && Campaigns(c, h, v, c', h', sent) && Evolves(c, h, c', h') && AboutCompleteness(x)
    ensures Holds(c', h', x)
  {
    var k := At(c.nodes[v].currentTerm + 1, v);
    if x.VoterHolds? && x.k == k {
      CampaignVoter(c, h, v, c', h', sent, x.t, x.n);
    } else {
      CompletenessKept(c, h, c', h', x);
    }
  }

  lemma CampaignVoter(c: Cluster, h: History, v: NodeId, c': Cluster, h': History, sent: set<Message>, t: nat, n: int)
    requires Inv(c, h) && Campaigns(c, h, v, c', h', sent) && Evolves(c, h, c', h')
    ensures VoterComplete(c', h', t, n, At(c.nodes[v].currentTerm + 1, v))
  {
    if n <= Acked(h', At(t, v)) && Potential(c', h', t, n) {
      PotentialBack(c, h, c', h', t, n);
      Know(c, h, AckerHolds(t, n, v));
    }
  }

  // ---- Voting ----

  /** The up-to-date check: a log at least as new as a complete one is complete. */
  lemma NewerLogComplete(c: Cluster, h: History, log: Log, mine: Log, t: nat, n: int)
    requires Inv(c, h) && Potential(c, h, t, n)
    requires Genuine(h, log) && Genuine(h, mine) && Agree(h.termLog[t], mine, n + 1)
    requires LastTerm(log) > LastTerm(mine) || (LastTerm(log) == LastTerm(mine) && |log| >= |mine|)
    ensures Agree(h.termLog[t], log, n + 1)
  {
    var u := LastTerm(mine);
    assert Agree(mine, h.termLog[u], |mine|);
    assert mine[n].term == t;
    Know(c, h, LogOfTerm(t)); Know(c, h, LogOfTerm(u));
    assert t <= u;
    var w := LastTerm(log);
    assert log != [];
    assert Agree(log, h.termLog[w], |log|);
    Know(c, h, LogOfTerm(w));
    if w > u {
      Know(c, h, LeaderHolds(t, n, w));
      assert h.termLog[w][|log| - 1].term == w;
      assert h.termLog[w][n].term == t;
    }
  }

  ghost predicate Grants(
    c: Cluster, h: History, v: NodeId, ask: VoteRequest, c': Cluster, h': History, sent: set<Message>) {
    && v in c.nodes && ask.candidate != v && VoteAsk(ask) in c.net
    && var s := c.nodes[v];
    && ask.term == s.currentTerm && s.votedFor in {None, Some(ask.candidate)} && LogUpToDate(ask, s.log)
    && sent == {VoteAnswer(ask, v, VoteResponse(s.currentTerm, true))}
    && Moves(c, c', v, sent)
    && c'.nodes[v] == s.(votedFor := Some(ask.candidate))
    && h' == h.(vote := h.vote[At(ask.term, v) := ask.candidate])
  }

  lemma GrantKeeps(c: Cluster, h: History, v: NodeId, ask: VoteRequest, c': Cluster, h': History, sent: set<Message>)
    requires Inv(c, h) && Grants(c, h, v, ask, c', h', sent)
    ensures Inv(c', h') && Evolves(c, h, c', h')
  {
    assert Grows(h, h') by { Know(c, h, VoteOf(At(ask.term, v))); }
    forall x ensures Holds(c', h', x) {
      if x.Sent? || (AboutNodes(x) && x.v != v) {
        RestKept(c, h, c', h', v, sent, x);
      } else if AboutNodes(x) {
        GrantNode(c, h, v, ask, c', h', sent, x);
      } else if AboutCompleteness(x) {
        GrantComplete(c, h, v, ask, c', h', sent, x);
      } else {
        GrantRecord(c, h, v, ask, c', h', sent, x);
      }
    }
  }

  lemma GrantNode(
    c: Cluster, h: History, v: NodeId, ask: VoteRequest, c': Cluster, h': History, sent: set<Message>, x: Clause)
    requires Inv(c, h) && Grants(c, h, v, ask, c', h', sent) && Grows(h, h') && AboutNode(x, v)
    ensures Holds(c', h', x)
  {
    NodeFacts(c, h, v);
    AnswersStable(c.nodes.Keys, h, h', c.nodes[v], c'.nodes[v]);
    GrantState(c.nodes.Keys, h, v, ask, c.nodes[v], h');
  }

  lemma GrantState(members: set<NodeId>, h: History, v: NodeId, ask: VoteRequest, s: NodeState, h': History)
    requires ask.term == s.currentTerm && ask.candidate != v && s.votedFor in {None, Some(ask.candidate)}
    requires Grows(h, h')
    requires h' == h.(vote := h.vote[At(ask.term, v) := ask.candidate])
    requires CampaignOk(members, h, v, s) && LeaderOk(h, v, s) && LogOk(h, s) && CommitOk(members, h, s)
    requires PeersOk(members, h, v, s)
    ensures var s' := s.(votedFor := Some(ask.candidate));
      && VoterOk(h', v, s') && CampaignOk(members, h', v, s') && LeaderOk(h', v, s')
      && LogOk(h', s') && CommitOk(members, h', s') && PeersOk(members, h', v, s')
  {
    GenuineStable(h, h', s.log);
    CommittedStable(members, h, h', s.currentTerm, s.currentTerm, s.log, s.log, s.commitIndex + 1);
  }

  lemma GrantRecord(
    c: Cluster, h: History, v: NodeId, ask: VoteRequest, c': Cluster, h': History, sent: set<Message>, x: Clause)
    requires Inv(c, h) && Grants(c, h, v, ask, c', h', sent) && Grows(h, h') && AboutRecord(x)
    ensures Holds(c', h', x)
  {
    match x
    case Configuration => Know(c, h, x); ConfigurationKept(c, h, c', h');
    case VoteOf(k) => GrantVote(c, h, v, ask, c', h', sent, k);
    case CandidacyOf(k) => GrantCandidacy(c, h, v, ask, c', h', sent, k);
    case ElectionOf(t) => GrantElection(c, h, v, ask, c', h', sent, t);
    case LogOfTerm(t) => Know(c, h, x); TermLogKept(h, h', t);
    case AckOf(k) => GrantAck(c, h, v, ask, c', h', sent, k);
  }

  lemma GrantCandidacy(
    c: Cluster, h: History, v: NodeId, ask: VoteRequest, c': Cluster, h': History, sent: set<Message>, k: At)
    requires Inv(c, h) && Grants(c, h, v, ask, c', h', sent) && Grows(h, h')
    ensures CandidateOk(c', h', k)
  {
    Know(c, h, CandidacyOf(k));
    if k in h'.candLog { GenuineStable(h, h', h'.candLog[k]); }
  }

  lemma GrantAck(
    c: Cluster, h: History, v: NodeId, ask: VoteRequest, c': Cluster, h': History, sent: set<Message>, k: At)
    requires Inv(c, h) && Grants(c, h, v, ask, c', h', sent)
    ensures AckOk(c', h', k)
  {
    Know(c, h, AckOf(k));
  }

  lemma GrantVote(
    c: Cluster, h: History, v: NodeId, ask: VoteRequest, c': Cluster, h': History, sent: set<Message>, k: At)
    requires Inv(c, h) && Grants(c, h, v, ask, c', h', sent)
    ensures VoteOk(c', h', k)
  {
    Know(c, h, VoteOf(k));
    Know(c, h, Sent(VoteAsk(ask)));
  }

  lemma GrantElection(
    c: Cluster, h: History, v: NodeId, ask: VoteRequest, c': Cluster, h': History, sent: set<Message>, t: nat)
    requires Inv(c, h) && Grants(c, h, v, ask, c', h', sent) && Grows(h, h')
    ensures TermOk(c', h', t)
  {
    Know(c, h, ElectionOf(t));
    if t in h.leaderOf { VotedForStable(h, h', t, h.leaderOf[t]); }
  }

  lemma GrantComplete(
    c: Cluster, h: History, v: NodeId, ask: VoteRequest, c': Cluster, h': History, sent: set<Message>, x: Clause)
    requires Inv(c, h) && Grants(c, h, v, ask, c', h', sent) && Evolves(c, h, c', h') && AboutCompleteness(x)
    ensures Holds(c', h', x)
  {
    if x.VoterHolds? {
      GrantVoter(c, h, v, ask, c', h', sent, x.t, x.n, x.k);
    } else {
      CompletenessKept(c, h, c', h', x);
    }
  }

  lemma GrantVoter(
    c: Cluster, h: History, v: NodeId, ask: VoteRequest, c': Cluster, h': History, sent: set<Message>, t: nat,
      n: int, k: At)
    requires Inv(c, h) && Grants(c, h, v, ask, c', h', sent) && Evolves(c, h, c', h')
    ensures VoterComplete(c', h', t, n, k)
  {
    if k in h.vote {
      Know(c, h, VoteOf(k));
      Know(c, h, VoterHolds(t, n, k));
      VoterCompleteKept(c, h, c', h', t, n, k);
    } else if k == At(ask.term, v) && t < k.term && n <= Acked(h', At(t, v)) && Potential(c', h', t, n) {
      PotentialBack(c, h, c', h', t, n);
      VoteGoesToComplete(c, h, v, ask, t, n);
    }
  }

  lemma VoteGoesToComplete(c: Cluster, h: History, v: NodeId, ask: VoteRequest, t: nat, n: int)
    requires Inv(c, h) && v in c.nodes && VoteAsk(ask) in c.net && LogUpToDate(ask, c.nodes[v].log)
    requires Potential(c, h, t, n) && n <= Acked(h, At(t, v))
    ensures At(ask.term, ask.candidate) in h.candLog
    ensures Agree(h.termLog[t], h.candLog[At(ask.term, ask.candidate)], n + 1)
  {
    var k := At(ask.term, ask.candidate);
    Know(c, h, Sent(VoteAsk(ask))); Know(c, h, CandidacyOf(k));
    Know(c, h, AckerHolds(t, n, v)); Know(c, h, LogOf(v));
    NewerLogComplete(c, h, h.candLog[k], c.nodes[v].log, t, n);
  }

  // ---- Winning ----

  ghost predicate Elected(c: Cluster, h: History, v: NodeId, s: NodeState) {
    && v in c.nodes
    && s == c.nodes[v].(votesReceived := s.votesReceived) && s.role == Candidate
    && Quorum(c.nodes.Keys, s.votesReceived) && CampaignOk(c.nodes.Keys, h, v, s)
  }

  /** The winner's indices start over; the rest of its state stays. */
  ghost predicate TakesOffice(members: set<NodeId>, v: NodeId, s: NodeState, s': NodeState) {
    && s'.role == Leader && s'.currentTerm == s.currentTerm && s'.votedFor == s.votedFor && s'.log == s.log
    && s'.commitIndex == s.commitIndex && s'.lastApplied == s.lastApplied
    && s'.pending == s.pending && s'.answers == s.answers
    && s'.matchIndex.Keys <= members - {v} && s'.nextIndex.Keys <= members - {v}
    && (forall p {:trigger s'.matchIndex[p]} :: p in s'.matchIndex ==> s'.matchIndex[p] == -1)
    && (forall p {:trigger s'.nextIndex[p]} :: p in s'.nextIndex ==> s'.nextIndex[p] == |s.log|)
  }

  ghost predicate RecordsWin(h: History, v: NodeId, s: NodeState, h': History) {
    var t := s.currentTerm;
    && h'.vote == h.vote && h'.candLog == h.candLog
    && h'.leaderOf == h.leaderOf[t := v] && h'.electors == h.electors[t := s.votesReceived]
    && h'.termLog == h.termLog[t := s.log] && h'.ack == h.ack[At(t, v) := |s.log| - 1]
  }

  ghost predicate Wins(c: Cluster, h: History, v: NodeId, s: NodeState, c': Cluster, h': History) {
    && Elected(c, h, v, s)
    && Moves(c, c', v, {}) && TakesOffice(c.nodes.Keys, v, s, c'.nodes[v])
    && RecordsWin(h, v, s, h')
  }

  /** Election safety: two quorums share a voter, and a voter votes once a term. */
  lemma NoOtherWinner(c: Cluster, h: History, v: NodeId, s: NodeState)
    requires Inv(c, h) && Elected(c, h, v, s)
    ensures s.currentTerm !in h.leaderOf && s.currentTerm !in h.termLog && SameTerms(h)
    ensures forall p :: At(s.currentTerm, p) !in h.ack
  {
    var t := s.currentTerm;
    Know(c, h, Configuration);
    if t in h.leaderOf {
      Know(c, h, ElectionOf(t));
      var x := QuorumsMeet(c.nodes.Keys, s.votesReceived, h.electors[t]);
    }
    forall p ensures At(t, p) !in h.ack { Know(c, h, AckOf(At(t, p))); }
  }

  lemma WinnerLog(c: Cluster, h: History, v: NodeId, s: NodeState)
    requires Inv(c, h) && s.role == Candidate && CampaignOk(c.nodes.Keys, h, v, s)
    ensures Genuine(h, s.log) && TermsBelow(s.log, s.currentTerm) && Sorted(s.log) && Indexed(s.log)
  {
    Know(c, h, CandidacyOf(At(s.currentTerm, v)));
    GenuineSorted(c, h, s.log);
  }

  lemma WinGrows(c: Cluster, h: History, v: NodeId, s: NodeState, h': History)
    requires Inv(c, h) && Elected(c, h, v, s) && RecordsWin(h, v, s, h')
    ensures Grows(h, h')
  {
    NoOtherWinner(c, h, v, s);
  }

  lemma WinEvolves(c: Cluster, h: History, v: NodeId, s: NodeState, c': Cluster, h': History)
    requires Inv(c, h) && Wins(c, h, v, s, c', h')
    ensures Evolves(c, h, c', h')
  {
    WinGrows(c, h, v, s, h');
  }

  lemma GenuineSorted(c: Cluster, h: History, log: Log)
    requires Inv(c, h) && Genuine(h, log)
    ensures Sorted(log) && Indexed(log)
  {
    if log != [] {
      var t := LastTerm(log);
      assert Agree(log, h.termLog[t], |log|);
      Know(c, h, LogOfTerm(t));
    }
  }

  lemma WinKeeps(c: Cluster, h: History, v: NodeId, s: NodeState, c': Cluster, h': History)
    requires Inv(c, h) && Wins(c, h, v, s, c', h')
    ensures Inv(c', h') && Evolves(c, h, c', h')
  {
    WinEvolves(c, h, v, s, c', h');
    EvolvesGrows(c, h, c', h');
    forall x ensures Holds(c', h', x) {
      if x.Sent? || (AboutNodes(x) && x.v != v) {
        RestKept(c, h, c', h', v, {}, x);
      } else if AboutNodes(x) {
        WinNode(c, h, v, s, c', h', x);
      } else if AboutCompleteness(x) {
        WinComplete(c, h, v, s, c', h', x);
      } else {
        WinRecord(c, h, v, s, c', h', x);
      }
    }
  }

  lemma WinNode(c: Cluster, h: History, v: NodeId, s: NodeState, c': Cluster, h': History, x: Clause)
    requires Inv(c, h) && Wins(c, h, v, s, c', h') && Grows(h, h') && AboutNode(x, v)
    ensures Holds(c', h', x)
  {
    WinnerOk(c, h, v, s, c'.nodes[v], h');
  }

  lemma WinnerOk(c: Cluster, h: History, v: NodeId, s: NodeState, s': NodeState, h': History)
    requires Inv(c, h) && Elected(c, h, v, s) && TakesOffice(c.nodes.Keys, v, s, s')
    requires RecordsWin(h, v, s, h') && Grows(h, h')
    ensures VoterOk(h', v, s') && CampaignOk(c.nodes.Keys, h', v, s') && LeaderOk(h', v, s') && LogOk(h', s')
    ensures CommitOk(c.nodes.Keys, h', s') && PeersOk(c.nodes.Keys, h', v, s') && ClientOk(c.nodes.Keys, h', s')
  {
    NodeFacts(c, h, v);
    NoOtherWinner(c, h, v, s);
    WinClients(c, h, v, s, s', h');
    WinState(c.nodes.Keys, h, v, s, s', h');
    WinPeers(c.nodes.Keys, h, v, s, s', h');
  }

  lemma WinState(members: set<NodeId>, h: History, v: NodeId, s: NodeState, s': NodeState, h': History)
    requires TakesOffice(members, v, s, s') && RecordsWin(h, v, s, h') && Grows(h, h')
    requires VoterOk(h, v, s) && LogOk(h, s) && CommitOk(members, h, s)
    ensures VoterOk(h', v, s') && CampaignOk(members, h', v, s') && LeaderOk(h', v, s')
    ensures LogOk(h', s') && CommitOk(members, h', s')
  {
    GenuineStable(h, h', s.log);
    CommittedStable(members, h, h', s.currentTerm, s.currentTerm, s.log, s.log, s.commitIndex + 1);
  }

  lemma WinPeers(members: set<NodeId>, h: History, v: NodeId, s: NodeState, s': NodeState, h': History)
    requires TakesOffice(members, v, s, s') && RecordsWin(h, v, s, h')
    requires forall p :: At(s.currentTerm, p) !in h.ack
    ensures PeersOk(members, h', v, s')
  {
    forall p | p in s'.matchIndex ensures s'.matchIndex[p] <= Acked(h', At(s.currentTerm, p)) {
      assert At(s.currentTerm, p) !in h.ack;
    }
  }

  lemma WinClients(c: Cluster, h: History, v: NodeId, s: NodeState, s': NodeState, h': History)
    requires Inv(c, h) && Elected(c, h, v, s) && TakesOffice(c.nodes.Keys, v, s, s') && Grows(h, h')
    ensures ClientOk(c.nodes.Keys, h', s')
  {
    Know(c, h, ClientsOf(v));
    WinnerLog(c, h, v, s);
    AnswersStable(c.nodes.Keys, h, h', c.nodes[v], s');
  }

  lemma BecomeLeaderIndices(s: NodeState, v: NodeId, peers: seq<NodeId>, others: set<NodeId>)
    requires (set p | p in peers) == others && s.matchIndex.Keys <= others && s.nextIndex.Keys <= others
    ensures var s' := BecomeLeader(s, v, peers);
      && s'.matchIndex.Keys == others && s'.nextIndex.Keys == others
      && (forall p {:trigger s'.matchIndex[p]} :: p in s'.matchIndex ==> s'.matchIndex[p] == -1)
      && (forall p {:trigger s'.nextIndex[p]} :: p in s'.nextIndex ==> s'.nextIndex[p] == |s.log|)
  {
    var s' := BecomeLeader(s, v, peers);
    forall p ensures p in peers <==> p in others {
      assert p in (set q | q in peers) <==> p in others;
    }
    assert Uniform(peers, -1).Keys == others;
    assert Uniform(peers, |s.log|).Keys == others;
  }

  lemma WinRecord(c: Cluster, h: History, v: NodeId, s: NodeState, c': Cluster, h': History, x: Clause)
    requires Inv(c, h) && Wins(c, h, v, s, c', h') && Evolves(c, h, c', h') && AboutRecord(x)
    ensures Holds(c', h', x)
  {
    match x
    case Configuration => WinConfiguration(c, h, v, s, c', h');
    case CandidacyOf(k) => WinCandidacy(c, h, v, s, c', h', k);
    case ElectionOf(t) => WinElection(c, h, v, s, c', h', t);
    case LogOfTerm(t) => WinLog(c, h, v, s, h', t);
    case VoteOf(k) => WinVote(c, h, v, s, c', h', k);
    case AckOf(k) => WinAck(c, h, v, s, c', h', k);
  }

  lemma WinConfiguration(c: Cluster, h: History, v: NodeId, s: NodeState, c': Cluster, h': History)
    requires Inv(c, h) && Wins(c, h, v, s, c', h')
    ensures Holds(c', h', Configuration)
  {
    NoOtherWinner(c, h, v, s);
    ConfigurationKept(c, h, c', h');
  }

  lemma WinCandidacy(c: Cluster, h: History, v: NodeId, s: NodeState, c': Cluster, h': History, k: At)
    requires Inv(c, h) && RecordsWin(h, v, s, h') && Evolves(c, h, c', h')
    ensures CandidateOk(c', h', k)
  {
    Know(c, h, CandidacyOf(k));
    CandidacyKept(c, h, c', h', k);
  }

  lemma WinElection(c: Cluster, h: History, v: NodeId, s: NodeState, c': Cluster, h': History, t: nat)
    requires Inv(c, h) && Wins(c, h, v, s, c', h')
    ensures TermOk(c', h', t)
  {
    Know(c, h, ElectionOf(t));
  }

  lemma WinVote(c: Cluster, h: History, v: NodeId, s: NodeState, c': Cluster, h': History, k: At)
    requires Inv(c, h) && Wins(c, h, v, s, c', h')
    ensures VoteOk(c', h', k)
  {
    Know(c, h, VoteOf(k));
  }

  lemma WinAck(c: Cluster, h: History, v: NodeId, s: NodeState, c': Cluster, h': History, k: At)
    requires Inv(c, h) && Wins(c, h, v, s, c', h')
    ensures AckOk(c', h', k)
  {
    Know(c, h, AckOf(k));
    NoOtherWinner(c, h, v, s);
  }

  lemma WinLog(c: Cluster, h: History, v: NodeId, s: NodeState, h': History, t: nat)
    requires Inv(c, h) && Elected(c, h, v, s) && RecordsWin(h, v, s, h')
    ensures TermLogOk(h', t)
  {
    WinGrows(c, h, v, s, h');
    Know(c, h, LogOfTerm(t));
    if t == s.currentTerm {
      WinnerLog(c, h, v, s);
      GenuineStable(h, h', s.log);
    } else {
      TermLogKept(h, h', t);
    }
  }

  lemma WinComplete(c: Cluster, h: History, v: NodeId, s: NodeState, c': Cluster, h': History, x: Clause)
    requires Inv(c, h) && Wins(c, h, v, s, c', h') && Evolves(c, h, c', h') && AboutCompleteness(x)
    ensures Holds(c', h', x)
  {
    match x
    case LeaderHolds(t, n, u) => WinLeader(c, h, v, s, c', h', t, n, u);
    case AckerHolds(t, n, w) => WinAcker(c, h, v, s, c', h', t, n, w);
    case VoterHolds(t, n, k) => WinVoter(c, h, v, s, c', h', t, n, k);
  }

  lemma WinLeader(c: Cluster, h: History, v: NodeId, s: NodeState, c': Cluster, h': History, t: nat, n: int, u: nat)
    requires Inv(c, h) && Wins(c, h, v, s, c', h') && Evolves(c, h, c', h')
    ensures LeaderComplete(c', h', t, n, u)
  {
    if u in h'.termLog && t < u && Potential(c', h', t, n) {
      WinPotential(c, h, v, s, c', h', t, n);
      if u == s.currentTerm { VotersMayAck(c, h, v, s, t, n); } else { Know(c, h, LeaderHolds(t, n, u)); }
    }
  }

  lemma WinAcker(c: Cluster, h: History, v: NodeId, s: NodeState, c': Cluster, h': History, t: nat, n: int, w: NodeId)
    requires Inv(c, h) && Wins(c, h, v, s, c', h') && Evolves(c, h, c', h')
    ensures AckerComplete(c', h', t, n, w)
  {
    if w in c'.nodes && n <= Acked(h', At(t, w)) && Potential(c', h', t, n) {
      WinPotential(c, h, v, s, c', h', t, n);
      Know(c, h, AckerHolds(t, n, w));
    }
  }

  lemma WinVoter(c: Cluster, h: History, v: NodeId, s: NodeState, c': Cluster, h': History, t: nat, n: int, k: At)
    requires Inv(c, h) && Wins(c, h, v, s, c', h') && Evolves(c, h, c', h')
    ensures VoterComplete(c', h', t, n, k)
  {
    if k in h'.vote && t < k.term && n <= Acked(h', At(t, k.node)) && Potential(c', h', t, n) {
      WinPotential(c, h, v, s, c', h', t, n);
      Know(c, h, VoterHolds(t, n, k));
    }
  }

  /** The new leader has appended nothing of its own yet. */
  lemma WinPotential(c: Cluster, h: History, v: NodeId, s: NodeState, c': Cluster, h': History, t: nat, n: int)
    requires Inv(c, h) && Wins(c, h, v, s, c', h') && Evolves(c, h, c', h') && Potential(c', h', t, n)
    ensures t != s.currentTerm && Potential(c, h, t, n)
  {
    WinnerLog(c, h, v, s);
    PotentialBack(c, h, c', h', t, n);
  }

  /** Whoever may have acknowledged an older entry is among the voters, and voted for a complete log. */
  lemma VotersMayAck(c: Cluster, h: History, v: NodeId, s: NodeState, t: nat, n: int)
    requires Inv(c, h) && Potential(c, h, t, n) && t < s.currentTerm
    requires v in c.nodes && Quorum(c.nodes.Keys, s.votesReceived) && CampaignOk(c.nodes.Keys, h, v, s)
    requires s.role == Candidate
    ensures Agree(h.termLog[t], s.log, n + 1)
  {
    var q :| Quorum(c.nodes.Keys, q) && MayAck(c, h, q, t, n);
    var x := QuorumsMeet(c.nodes.Keys, q, s.votesReceived);
    var k := At(s.currentTerm, x);
    assert VotedFor(h, s.currentTerm, x, v);
    Know(c, h, VoteOf(k));
    assert n <= Acked(h, At(t, x));
    Know(c, h, VoterHolds(t, n, k));
  }
}
