/**
  What most steps have in common: one node moves, the rest stays, and so do the clauses about it.  Steps that leave
  the log alone and cast no vote are settled here; handlers that first catch up with a newer term are two steps.
 */
module RaftSteps {
  import opened Wrappers
  import opened RaftSpec
  import opened RaftCluster
  import opened RaftInvariant
  import opened RaftStability

  /** The step replaces v's state only, and sends `sent`. */
  ghost predicate Moves(c: Cluster, c': Cluster, v: NodeId, sent: set<Message>) {
    && v in c.nodes && c'.peers == c.peers && c'.nodes.Keys == c.nodes.Keys && c'.net == c.net + sent
    && forall w {:trigger c'.nodes[w]} :: w in c.nodes && w != v ==> c'.nodes[w] == c.nodes[w]
  }

  lemma PutMoves(c: Cluster, v: NodeId, s: NodeState, sent: set<Message>)
    requires v in c.nodes
    ensures Moves(c, Put(c, v, s, sent), v, sent) && Put(c, v, s, sent).nodes[v] == s
  {
  }

  predicate AboutNode(x: Clause, v: NodeId) {
    (x.BallotOf? || x.CampaignOf? || x.LeadershipOf? || x.LogOf? || x.PeersOf? || x.CommitOf? || x.ClientsOf?)
      && x.v == v
  }

  predicate AboutNodes(x: Clause) {
    x.BallotOf? || x.CampaignOf? || x.LeadershipOf? || x.LogOf? || x.PeersOf? || x.CommitOf? || x.ClientsOf?
  }

  predicate AboutRecord(x: Clause) {
    x.Configuration? || x.VoteOf? || x.CandidacyOf? || x.ElectionOf? || x.LogOfTerm? || x.AckOf?
  }

  predicate AboutCompleteness(x: Clause) {
    x.LeaderHolds? || x.AckerHolds? || x.VoterHolds?
  }

  /** What is said of a node that does not move, or of a message already sent, stays true. */
  lemma RestKept(c: Cluster, h: History, c': Cluster, h': History, v: NodeId, sent: set<Message>, x: Clause)
    requires Inv(c, h) && Moves(c, c', v, sent) && Grows(h, h')
    requires x.Sent? || (AboutNodes(x) && x.v != v)
    requires x.Sent? && x.m in sent ==> MessageOk(c.nodes.Keys, h', x.m)
    requires AboutNodes(x) ==> forall t :: Acked(h', At(t, x.v)) == Acked(h, At(t, x.v))
    ensures Holds(c', h', x)
  {
    var members := c.nodes.Keys;
    if x.Sent? {
      if x.m in c.net { Know(c, h, x); MessageStable(members, h, h', x.m); }
    } else if x.v in c.nodes {
      NodeKept(members, h, h', x, c.nodes[x.v], c, c');
    }
  }

  lemma NodeKept(members: set<NodeId>, h: History, h': History, x: Clause, s: NodeState, c: Cluster, c': Cluster)
    requires Inv(c, h) && Grows(h, h') && AboutNodes(x)
    requires members == c.nodes.Keys == c'.nodes.Keys && x.v in c.nodes && c.nodes[x.v] == c'.nodes[x.v] == s
    requires forall t :: Acked(h', At(t, x.v)) == Acked(h, At(t, x.v))
    ensures Holds(c', h', x)
  {
    Know(c, h, x);
    match x
    case BallotOf(_) => assert GrowsAt(h, h', s.currentTerm, x.v);
    case CampaignOf(_) =>
      assert GrowsAt(h, h', s.currentTerm, x.v);
      VotedForStable(h, h', s.currentTerm, x.v);
    case LeadershipOf(_) => assert GrowsAt(h, h', s.currentTerm, x.v);
    case LogOf(_) => GenuineStable(h, h', s.log);
    case CommitOf(_) =>
      CommittedStable(members, h, h', s.currentTerm, s.currentTerm, s.log, s.log, s.commitIndex + 1);
    case ClientsOf(_) => AnswersStable(members, h, h', s, s);
    case PeersOf(_) =>
      assert Acked(h', At(s.currentTerm, x.v)) == Acked(h, At(s.currentTerm, x.v));
      forall p ensures Acked(h, At(s.currentTerm, p)) <= Acked(h', At(s.currentTerm, p)) {
        assert GrowsAt(h, h', s.currentTerm, p);
      }
  }

  lemma ConfigurationKept(c: Cluster, h: History, c': Cluster, h': History)
    requires Inv(c, h) && c'.peers == c.peers && c'.nodes.Keys == c.nodes.Keys && SameTerms(h')
    ensures Holds(c', h', Configuration)
  {
    Know(c, h, Configuration);
    forall w ensures KnowsPeers(c', w) { assert KnowsPeers(c, w); }
  }

  // ---- Steps that leave the log alone and cast no vote ----

  ghost predicate SameTerm(s: NodeState, s': NodeState) {
    && s'.currentTerm == s.currentTerm && s'.votedFor == s.votedFor
    && (s'.role == s.role || (s.role == Candidate && s'.role == Follower))
  }

  ghost predicate NewerTerm(s: NodeState, s': NodeState) {
    s'.currentTerm > s.currentTerm && s'.votedFor == None && s'.role == Follower
  }

  ghost predicate Quiet(s: NodeState, s': NodeState) {
    s'.log == s.log && (SameTerm(s, s') || NewerTerm(s, s'))
  }

  lemma QuietKeeps(c: Cluster, h: History, c': Cluster, v: NodeId, sent: set<Message>)
    requires Inv(c, h) && Moves(c, c', v, sent) && Quiet(c.nodes[v], c'.nodes[v])
    requires CampaignOk(c.nodes.Keys, h, v, c'.nodes[v]) && PeersOk(c.nodes.Keys, h, v, c'.nodes[v])
    requires CommitOk(c.nodes.Keys, h, c'.nodes[v]) && ClientOk(c.nodes.Keys, h, c'.nodes[v])
    requires forall m {:trigger m in sent} :: m in sent ==> MessageOk(c.nodes.Keys, h, m)
    ensures Inv(c', h) && Evolves(c, h, c', h)
  {
    forall x ensures Holds(c', h, x) {
      if x.Sent? || (AboutNodes(x) && x.v != v) {
        RestKept(c, h, c', h, v, sent, x);
      } else {
        QuietClause(c, h, c', v, sent, x);
      }
    }
  }

  lemma QuietClause(c: Cluster, h: History, c': Cluster, v: NodeId, sent: set<Message>, x: Clause)
    requires Inv(c, h) && Moves(c, c', v, sent) && Quiet(c.nodes[v], c'.nodes[v])
    requires CampaignOk(c.nodes.Keys, h, v, c'.nodes[v]) && PeersOk(c.nodes.Keys, h, v, c'.nodes[v])
    requires CommitOk(c.nodes.Keys, h, c'.nodes[v]) && ClientOk(c.nodes.Keys, h, c'.nodes[v])
    requires !x.Sent? && !(AboutNodes(x) && x.v != v)
    ensures Holds(c', h, x)
  {
    if AboutNodes(x) {
      QuietState(c, h, v, c'.nodes[v]);
    } else if AboutRecord(x) {
      QuietRecord(c, h, c', v, sent, x);
    } else {
      QuietComplete(c, h, c', v, sent, x);
    }
  }

  lemma QuietState(c: Cluster, h: History, v: NodeId, s': NodeState)
    requires Inv(c, h) && v in c.nodes && Quiet(c.nodes[v], s')
    ensures VoterOk(h, v, s') && LeaderOk(h, v, s') && LogOk(h, s')
  {
    Know(c, h, BallotOf(v)); Know(c, h, LeadershipOf(v)); Know(c, h, LogOf(v));
  }

  lemma QuietRecord(c: Cluster, h: History, c': Cluster, v: NodeId, sent: set<Message>, x: Clause)
    requires Inv(c, h) && Moves(c, c', v, sent) && Quiet(c.nodes[v], c'.nodes[v]) && AboutRecord(x)
    ensures Holds(c', h, x)
  {
    match x
    case Configuration => Know(c, h, x); ConfigurationKept(c, h, c', h);
    case VoteOf(k) => QuietVote(c, h, c', v, sent, k);
    case CandidacyOf(k) => QuietCandidacy(c, h, c', v, sent, k);
    case ElectionOf(t) => QuietElection(c, h, c', v, sent, t);
    case LogOfTerm(t) => Know(c, h, x);
    case AckOf(k) => QuietAck(c, h, c', v, sent, k);
  }

  lemma QuietVote(c: Cluster, h: History, c': Cluster, v: NodeId, sent: set<Message>, k: At)
    requires Inv(c, h) && Moves(c, c', v, sent) && Quiet(c.nodes[v], c'.nodes[v])
    ensures VoteOk(c', h, k)
  {
    Know(c, h, VoteOf(k));
  }

  lemma QuietCandidacy(c: Cluster, h: History, c': Cluster, v: NodeId, sent: set<Message>, k: At)
    requires Inv(c, h) && Moves(c, c', v, sent) && Quiet(c.nodes[v], c'.nodes[v])
    ensures CandidateOk(c', h, k)
  {
    Know(c, h, CandidacyOf(k));
  }

  lemma QuietElection(c: Cluster, h: History, c': Cluster, v: NodeId, sent: set<Message>, t: nat)
    requires Inv(c, h) && Moves(c, c', v, sent) && Quiet(c.nodes[v], c'.nodes[v])
    ensures TermOk(c', h, t)
  {
    Know(c, h, ElectionOf(t));
  }

  lemma QuietAck(c: Cluster, h: History, c': Cluster, v: NodeId, sent: set<Message>, k: At)
    requires Inv(c, h) && Moves(c, c', v, sent) && Quiet(c.nodes[v], c'.nodes[v])
    ensures AckOk(c', h, k)
  {
    Know(c, h, AckOf(k));
  }

  lemma QuietComplete(c: Cluster, h: History, c': Cluster, v: NodeId, sent: set<Message>, x: Clause)
    requires Inv(c, h) && Moves(c, c', v, sent) && Quiet(c.nodes[v], c'.nodes[v]) && AboutCompleteness(x)
    ensures Holds(c', h, x)
  {
    QuietEvolves(c, h, c', v, sent);
    CompletenessKept(c, h, c', h, x);
  }

  lemma QuietEvolves(c: Cluster, h: History, c': Cluster, v: NodeId, sent: set<Message>)
    requires Inv(c, h) && Moves(c, c', v, sent) && Quiet(c.nodes[v], c'.nodes[v])
    ensures Evolves(c, h, c', h)
  {
  }

  /** A step that adds to no log, casts no vote and acknowledges nothing leaves leaders, ackers and voters complete. */
  lemma CompletenessKept(c: Cluster, h: History, c': Cluster, h': History, x: Clause)
    requires Inv(c, h) && Evolves(c, h, c', h') && AboutCompleteness(x) && h'.termLog == h.termLog
    requires x.AckerHolds? && x.v in c.nodes && x.v in c'.nodes ==>
               Acked(h', At(x.t, x.v)) == Acked(h, At(x.t, x.v)) && c'.nodes[x.v].log == c.nodes[x.v].log
    requires x.VoterHolds? && x.k in h'.vote ==> x.k in h.vote && h'.vote[x.k] == h.vote[x.k]
    ensures Holds(c', h', x)
  {
    Know(c, h, x);
    match x
    case LeaderHolds(t, n, u) => LeaderCompleteKept(c, h, c', h', t, n, u);
    case AckerHolds(t, n, w) => AckerCompleteKept(c, h, c', h', t, n, w);
    case VoterHolds(t, n, k) => Know(c, h, VoteOf(k)); VoterCompleteKept(c, h, c', h', t, n, k);
  }

  lemma StepDownKeeps(c: Cluster, h: History, v: NodeId, s': NodeState)
    requires Inv(c, h) && v in c.nodes && s'.currentTerm > c.nodes[v].currentTerm
    requires s' == StepDown(c.nodes[v].(votesReceived := s'.votesReceived), s'.currentTerm)
    ensures Inv(Put(c, v, s', {}), h) && Evolves(c, h, Put(c, v, s', {}), h)
  {
    var s := c.nodes[v];
    Know(c, h, CommitOf(v)); Know(c, h, PeersOf(v)); Know(c, h, ClientsOf(v));
    CommittedStable(c.nodes.Keys, h, h, s.currentTerm, s'.currentTerm, s.log, s.log, s.commitIndex + 1);
    AnswersStable(c.nodes.Keys, h, h, s, s');
    PutMoves(c, v, s', {});
    QuietKeeps(c, h, Put(c, v, s', {}), v, {});
  }
}
