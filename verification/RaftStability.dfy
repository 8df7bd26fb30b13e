/**
  What a step can only add to: facts about the history that, once true, stay true.  Every step is shown to be
  such an addition, so what was known of other nodes, terms and messages need not be shown again.
 */
module RaftStability {
  import opened RaftSpec
  import opened RaftCluster
  import opened RaftInvariant
  import opened Quorums

  /** The history of term t, and of node p in it, is only added to. */
  ghost predicate GrowsAt(h: History, h': History, t: nat, p: NodeId) {
    var k := At(t, p);
    && (t in h.leaderOf ==> t in h'.leaderOf && h'.leaderOf[t] == h.leaderOf[t])
    && (t in h.termLog ==> t in h'.termLog && Agree(h.termLog[t], h'.termLog[t], |h.termLog[t]|))
    && (k in h.candLog ==> k in h'.candLog && h'.candLog[k] == h.candLog[k])
    && (k in h.vote ==> k in h'.vote && h'.vote[k] == h.vote[k])
    && Acked(h, k) <= Acked(h', k)
  }

  ghost predicate Grows(h: History, h': History) {
    forall t, p :: GrowsAt(h, h', t, p)
  }

  /** Terms only rise, and a node acknowledges only in a term it has not left. */
  ghost predicate EvolvesAt(c: Cluster, h: History, c': Cluster, h': History, t: nat, v: NodeId) {
    && (v in c'.nodes <==> v in c.nodes)
    && (v in c.nodes ==> c.nodes[v].currentTerm <= c'.nodes[v].currentTerm)
    && (Acked(h', At(t, v)) != Acked(h, At(t, v)) ==> v in c.nodes && c.nodes[v].currentTerm <= t)
  }

  ghost predicate Evolves(c: Cluster, h: History, c': Cluster, h': History) {
    forall t, v :: GrowsAt(h, h', t, v) && EvolvesAt(c, h, c', h', t, v)
  }

  lemma EvolvesGrows(c: Cluster, h: History, c': Cluster, h': History)
    requires Evolves(c, h, c', h')
    ensures Grows(h, h') && c'.nodes.Keys == c.nodes.Keys
  {
    forall v ensures v in c'.nodes <==> v in c.nodes { assert EvolvesAt(c, h, c', h', 0, v); }
    forall t, p ensures GrowsAt(h, h', t, p) { assert EvolvesAt(c, h, c', h', t, p); }
  }

  lemma GenuineStable(h: History, h': History, log: Log)
    requires Grows(h, h') && Genuine(h, log)
    ensures Genuine(h', log)
  {
    forall i | 0 <= i < |log|
      ensures log[i].term in h'.termLog && Agree(log, h'.termLog[log[i].term], i + 1)
    {
      assert Agree(log, h.termLog[log[i].term], i + 1) && GrowsAt(h, h', log[i].term, 0);
    }
  }

  lemma VotedForStable(h: History, h': History, t: nat, v: NodeId)
    requires Grows(h, h')
    ensures forall p {:trigger VotedFor(h', t, p, v)} :: VotedFor(h, t, p, v) ==> VotedFor(h', t, p, v)
  {
    forall p | VotedFor(h, t, p, v) ensures VotedFor(h', t, p, v) { assert GrowsAt(h, h', t, p); }
  }

  lemma ChosenStable(members: set<NodeId>, h: History, h': History, t: nat, n: int)
    requires Grows(h, h') && Chosen(members, h, t, n)
    ensures Chosen(members, h', t, n) && Agree(h.termLog[t], h'.termLog[t], n + 1)
  {
    var q :| Quorum(members, q) && AllAcked(h, q, t, n);
    assert GrowsAt(h, h', t, 0);
    forall v | v in q ensures n <= Acked(h', At(t, v)) { assert GrowsAt(h, h', t, v); }
    assert AllAcked(h', q, t, n);
  }

  lemma CommittedStable(members: set<NodeId>, h: History, h': History, t: nat, t': nat, log: Log, log': Log, k: int)
    requires Grows(h, h') && CommittedBy(members, h, t, log, k) && t <= t' && Agree(log, log', k)
    ensures CommittedBy(members, h', t', log', k)
  {
    if k > 0 {
      var u: nat, n :| u <= t && k <= n + 1 && Chosen(members, h, u, n) && Agree(log, h.termLog[u], k);
      ChosenStable(members, h, h', u, n);
      assert Agree(log', h'.termLog[u], k);
    }
  }

  lemma ChosenEntryStable(members: set<NodeId>, h: History, h': History, t: nat, t': nat, n: int, entry: LogEntry)
    requires Grows(h, h') && ChosenEntry(members, h, t, n, entry) && t <= t'
    ensures ChosenEntry(members, h', t', n, entry)
  {
    var u: nat :| u <= t && Chosen(members, h, u, n) && h.termLog[u][n] == entry;
    ChosenStable(members, h, h', u, n);
    assert h'.termLog[u][n] == entry;
  }

  lemma AppendStable(members: set<NodeId>, h: History, h': History, to: NodeId, req: AppendRequest)
    requires Grows(h, h') && AppendOk(members, h, to, req)
    ensures AppendOk(members, h', to, req)
  {
    assert GrowsAt(h, h', req.term, 0);
    CommittedStable(members, h, h', req.term, req.term, h.termLog[req.term], h'.termLog[req.term],
      req.leaderCommit + 1);
  }

  lemma MessageStable(members: set<NodeId>, h: History, h': History, m: Message)
    requires Grows(h, h') && MessageOk(members, h, m)
    ensures MessageOk(members, h', m)
  {
    match m
    case VoteAsk(ask) => assert GrowsAt(h, h', ask.term, ask.candidate);
    case VoteAnswer(ask, from, _) => assert GrowsAt(h, h', ask.term, from);
    case AppendAsk(to, append) => AppendStable(members, h, h', to, append);
    case AppendAnswer(append, from, _) =>
      assert GrowsAt(h, h', append.term, from);
      AppendStable(members, h, h', from, append);
  }

  lemma AnswersStable(members: set<NodeId>, h: History, h': History, s: NodeState, s': NodeState)
    requires Grows(h, h') && s'.answers == s.answers
    requires s'.currentTerm >= s.currentTerm && s'.commitIndex >= s.commitIndex
    requires forall i :: 0 <= i < |s.answers| ==> AnswerOk(members, h, s, s.answers[i])
    ensures forall i :: 0 <= i < |s'.answers| ==> AnswerOk(members, h', s', s'.answers[i])
  {
    forall i | 0 <= i < |s'.answers|
      ensures AnswerOk(members, h', s', s'.answers[i])
    {
      var a := s.answers[i];
      assert AnswerOk(members, h, s, a);
      ChosenEntryStable(members, h, h', s.currentTerm, s'.currentTerm, a.index, a.entry);
    }
  }

  /** What no quorum could acknowledge any more cannot become acknowledgeable. */
  lemma PotentialBack(c: Cluster, h: History, c': Cluster, h': History, t: nat, n: int)
    requires Evolves(c, h, c', h') && Potential(c', h', t, n) && OwnEntry(h, t, n)
    ensures Potential(c, h, t, n)
  {
    EvolvesGrows(c, h, c', h');
    var q :| Quorum(c'.nodes.Keys, q) && MayAck(c', h', q, t, n);
    forall v | v in q
      ensures v in c.nodes && (n <= Acked(h, At(t, v)) || c.nodes[v].currentTerm <= t)
    {
      assert n <= Acked(h', At(t, v)) || c'.nodes[v].currentTerm <= t;
      assert EvolvesAt(c, h, c', h', t, v);
    }
    assert MayAck(c, h, q, t, n);
  }

  /** Unless a term starts, leaders stay complete; likewise voters, unless a vote is cast. */
  lemma LeaderCompleteKept(c: Cluster, h: History, c': Cluster, h': History, t: nat, n: int, u: nat)
    requires Evolves(c, h, c', h') && LeaderComplete(c, h, t, n, u) && h'.termLog == h.termLog
    ensures LeaderComplete(c', h', t, n, u)
  {
    if Potential(c', h', t, n) {
      PotentialBack(c, h, c', h', t, n);
    }
  }

  lemma VoterCompleteKept(c: Cluster, h: History, c': Cluster, h': History, t: nat, n: int, k: At)
    requires Evolves(c, h, c', h') && VoterComplete(c, h, t, n, k) && VoteOk(c, h, k)
    requires h'.termLog == h.termLog && (k in h'.vote ==> k in h.vote && h'.vote[k] == h.vote[k])
    ensures VoterComplete(c', h', t, n, k)
  {
    if k in h'.vote && t < k.term && n <= Acked(h', At(t, k.node)) && Potential(c', h', t, n) {
      PotentialBack(c, h, c', h', t, n);
      assert EvolvesAt(c, h, c', h', t, k.node) && GrowsAt(h, h', k.term, k.node) && GrowsAt(h, h', k.term, h.vote[k]);
    }
  }

  /** A node that neither acknowledges more nor changes its log still holds what it acknowledged. */
  lemma AckerCompleteKept(c: Cluster, h: History, c': Cluster, h': History, t: nat, n: int, v: NodeId)
    requires Evolves(c, h, c', h') && AckerComplete(c, h, t, n, v) && h'.termLog == h.termLog
    requires v in c.nodes && v in c'.nodes ==>
               Acked(h', At(t, v)) == Acked(h, At(t, v)) && c'.nodes[v].log == c.nodes[v].log
    ensures AckerComplete(c', h', t, n, v)
  {
    EvolvesGrows(c, h, c', h');
    if v in c'.nodes && n <= Acked(h', At(t, v)) && Potential(c', h', t, n) {
      PotentialBack(c, h, c', h', t, n);
    }
  }
}
