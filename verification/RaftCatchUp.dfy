/** What an undisturbed leader can do: bring its peers up to its log, and commit. */
module RaftCatchUps {
  import opened LockCommands
  import opened Quorums
  import opened RaftCluster
  import opened RaftEffects
  import opened RaftFutures
  import opened RaftInvariant
  import opened RaftLeader
  import opened RaftRuns
  import opened RaftSpec
  import opened Sequences
  import opened Wrappers

  // ---- What a consistent state provides ----

  lemma PeersAre(c: Cluster, v: NodeId)
    requires Consistent(c) && v in c.nodes
    ensures v in c.peers && forall p :: p in c.peers[v] <==> p in c.nodes && p != v
    ensures |c.peers[v]| + 1 == |c.nodes|
  {
    var h :| Inv(c, h);
    Know(c, h, Configuration);
    assert KnowsPeers(c, v);
    forall p ensures p in c.peers[v] <==> p in c.nodes && p != v {
      assert p in (set q | q in c.peers[v]) <==> p in c.nodes.Keys - {v};
    }
  }

  lemma LeaderIndices(c: Cluster, v: NodeId, p: NodeId)
    requires Consistent(c) && v in c.nodes && c.nodes[v].role == Leader
    ensures 0 <= NextOf(c.nodes[v], p) <= |c.nodes[v].log|
  {
    var h :| Inv(c, h);
    Know(c, h, PeersOf(v));
  }

  lemma CommitInLog(c: Cluster, v: NodeId)
    requires Consistent(c) && v in c.nodes
    ensures -1 <= c.nodes[v].lastApplied <= c.nodes[v].commitIndex < |c.nodes[v].log|
  {
    var h :| Inv(c, h);
    Know(c, h, CommitOf(v));
  }

  // ---- Replication ----

  /** A request and its answer, with nothing in between. */
  lemma Exchange(c: Cluster, v: NodeId, p: NodeId) returns (c': Cluster)
    requires Consistent(c) && v in c.nodes && p in c.nodes && p != v && c.nodes[v].role == Leader
    ensures 0 <= NextOf(c.nodes[v], p) <= |c.nodes[v].log|
    ensures Can(c, c') && Consistent(c') && c'.peers == c.peers
    ensures var s, f := c.nodes[v], c.nodes[p];
      var req := AppendRequestOf(s, v, p); var (f', resp) := HandleAppend(f, req);
      c'.nodes == c.nodes[p := f'][v := HandleReply(s, p, req, resp)]
  {
    PeersAre(c, v);
    PeersAre(c, p);
    LeaderIndices(c, v, p);
    var req := AppendRequestOf(c.nodes[v], v, p);
    var resp := HandleAppend(c.nodes[p], req).1;
    var send, receive, reply := SendAppend(v, p), ReceiveAppend(p, req), ReceiveReply(v, p, req, resp);
    CanStep(c, send);
    var c1 := Do(c, send);
    assert c1.nodes == c.nodes && AppendAsk(p, req) in c1.net;
    CanStep(c1, receive);
    var c2 := Do(c1, receive);
    assert AppendAnswer(req, p, resp) in c2.net && c2.nodes[v] == c.nodes[v];
    CanStep(c2, reply);
    c' := Do(c2, reply);
    CanTrans(c, c1, c2);
    CanTrans(c, c2, c');
  }

  ghost predicate SameReign(s: NodeState, s': NodeState) {
    s' == s.(nextIndex := s'.nextIndex, matchIndex := s'.matchIndex)
  }

  /**
    Success takes both indices to the end of the log and has the follower commit as far as the leader has; a refusal
    takes the next index one back.  Either way the follower learns who leads.
   */
  lemma ExchangeEffect(s: NodeState, f: NodeState, v: NodeId, p: NodeId)
    requires s.role == Leader && f.currentTerm <= s.currentTerm && 0 <= NextOf(s, p) <= |s.log|
    requires -1 <= s.commitIndex < |s.log|
    ensures var req := AppendRequestOf(s, v, p); var (f', resp) := HandleAppend(f, req);
      var s' := HandleReply(s, p, req, resp);
      && SameReign(s, s') && f'.currentTerm == s.currentTerm
      && f'.currentLeader == Some(v)
      && (resp.success ==>
            MatchOf(s', p) >= |s.log| - 1 && NextOf(s', p) == |s.log| && f'.commitIndex >= s.commitIndex)
      && (!resp.success ==> NextOf(s', p) == NextOf(s, p) - 1)
      && (forall q :: q != p ==> MatchOf(s', q) == MatchOf(s, q))
  {
  }

  /** p is in v's term, knows that v leads it, and has committed all that v has. */
  ghost predicate InStep(c: Cluster, v: NodeId, p: NodeId) {
    && v in c.nodes && p in c.nodes && c.nodes[p].currentTerm == c.nodes[v].currentTerm
    && c.nodes[p].currentLeader == Some(v) && c.nodes[p].commitIndex >= c.nodes[v].commitIndex
  }

  /** The leader v may have been changed by replication, and so may p; nobody else. */
  ghost predicate Only(c: Cluster, c': Cluster, v: NodeId, p: NodeId) {
    && c'.peers == c.peers && c'.nodes.Keys == c.nodes.Keys && v in c.nodes
    && SameReign(c.nodes[v], c'.nodes[v])
    && forall w :: w in c.nodes && w != v && w != p ==> c'.nodes[w] == c.nodes[w]
  }

  /**
    After at most as many refusals as its next index says, the peer accepts everything the leader has, and commits
    all that the leader has committed.
   */
  lemma {:induction false} CatchesUp(c: Cluster, v: NodeId, p: NodeId) returns (c': Cluster)
    requires Consistent(c) && v in c.nodes && p in c.nodes && p != v
    requires c.nodes[v].role == Leader && c.nodes[p].currentTerm <= c.nodes[v].currentTerm
    ensures Can(c, c') && Consistent(c') && Only(c, c', v, p)
    ensures InStep(c', v, p) && MatchOf(c'.nodes[v], p) >= |c.nodes[v].log| - 1
    ensures forall q :: q != p ==> MatchOf(c'.nodes[v], q) == MatchOf(c.nodes[v], q)
    decreases NextOf(c.nodes[v], p)
  {
    var s, f := c.nodes[v], c.nodes[p];
    var c1 := Exchange(c, v, p);
    CommitInLog(c, v);
    ExchangeEffect(s, f, v, p);
    if HandleAppend(f, AppendRequestOf(s, v, p)).1.success {
      c' := c1;
    } else {
      LeaderIndices(c1, v, p);
      c' := CatchesUp(c1, v, p);
      CanTrans(c, c1, c');
    }
  }

  /** One after the other, all the peers in a list. */
  lemma {:induction false} AllCatchUp(c: Cluster, v: NodeId, ps: seq<NodeId>) returns (c': Cluster)
    requires Consistent(c) && v in c.nodes && c.nodes[v].role == Leader
    requires forall p :: p in ps ==> p in c.nodes && p != v && c.nodes[p].currentTerm <= c.nodes[v].currentTerm
    ensures Can(c, c') && Consistent(c') && c'.peers == c.peers && c'.nodes.Keys == c.nodes.Keys
    ensures SameReign(c.nodes[v], c'.nodes[v])
    ensures forall p :: p in ps ==> MatchOf(c'.nodes[v], p) >= |c.nodes[v].log| - 1
    ensures forall p :: p in ps ==> InStep(c', v, p)
    ensures forall p :: p !in ps ==> MatchOf(c'.nodes[v], p) == MatchOf(c.nodes[v], p)
    ensures forall w :: w in c.nodes && w != v && w !in ps ==> c'.nodes[w] == c.nodes[w]
    decreases |ps|
  {
    if ps == [] {
      CanStay(c);
      c' := c;
    } else {
      var n := |ps| - 1;
      var b := AllCatchUp(c, v, ps[..n]);
      assert forall p :: p in ps <==> p in ps[..n] || p == ps[n];
      c' := CatchesUp(b, v, ps[n]);
      forall p | p in ps ensures InStep(c', v, p) {
        if p != ps[n] { assert InStep(b, v, p); }
      }
      CanTrans(c, b, c');
    }
  }

  /** What the leader's match index says is so: its peer holds the log as far as that. */
  lemma MatchHeld(c: Cluster, v: NodeId, p: NodeId)
    requires Consistent(c) && v in c.nodes && p in c.nodes && c.nodes[v].role == Leader
    requires c.nodes[p].currentTerm == c.nodes[v].currentTerm && MatchOf(c.nodes[v], p) >= |c.nodes[v].log| - 1
    ensures c.nodes[v].log <= c.nodes[p].log
  {
    var h :| Inv(c, h);
    var t := c.nodes[v].currentTerm;
    LeaderFacts(c, h, v);
    Know(c, h, PeersOf(v));
    Know(c, h, AckOf(At(t, p)));
    if c.nodes[v].log != [] {
      assert p in c.nodes[v].matchIndex;
      assert Agree(h.termLog[t], c.nodes[p].log, h.ack[At(t, p)] + 1);
    }
  }

  // ---- Commitment ----

  lemma MajorityQuorate(s: NodeState, peers: seq<NodeId>, ps: seq<NodeId>, n: nat)
    requires n < |s.log| && s.log[n].term == s.currentTerm && Distinct(ps) && 1 + |ps| >= Majority(peers)
    requires forall p :: p in ps ==> MatchOf(s, p) >= n
    ensures Quorate(s, peers, n)
  {
    DistinctSize(ps);
    assert Elements(ps) <= Ackers(s, n);
    SubsetSize(Elements(ps), Ackers(s, n));
  }

  /** p holds the whole log of v, has committed it and applied it, and knows that v leads. */
  ghost predicate UpToDate(c: Cluster, v: NodeId, p: NodeId) {
    && v in c.nodes && p in c.nodes && c.nodes[v].log <= c.nodes[p].log
    && c.nodes[p].commitIndex >= |c.nodes[v].log| - 1 && c.nodes[p].lastApplied >= |c.nodes[v].log| - 1
    && c.nodes[p].currentLeader == Some(v)
  }

  /** The leader v has committed its whole log and answered the call for the last entry; each of ps is up to date. */
  ghost predicate AllCommitted(c: Cluster, v: NodeId, ps: seq<NodeId>) {
    && v in c.nodes && c.nodes[v].role == Leader
    && var s := c.nodes[v];
    var n := |s.log| - 1;
    && n >= 0 && s.commitIndex == s.lastApplied == n && Answer(n, s.log[n]) in s.answers
    && forall p :: p in ps ==> UpToDate(c, v, p)
  }

  ghost predicate Follow(c: Cluster, v: NodeId, ps: seq<NodeId>) {
    && v in c.nodes && c.nodes[v].role == Leader && v in c.peers
    && Distinct(ps) && 1 + |ps| >= Majority(c.peers[v])
    && forall p :: p in ps ==> p in c.nodes && p != v && c.nodes[p].currentTerm <= c.nodes[v].currentTerm
  }

  /** Everyone on the list applies what it has committed. */
  lemma {:induction false} AllApply(c: Cluster, ps: seq<NodeId>) returns (c': Cluster)
    requires Consistent(c) && forall p :: p in ps ==> p in c.nodes
    ensures Can(c, c') && Consistent(c') && c'.peers == c.peers && c'.nodes.Keys == c.nodes.Keys
    ensures forall p :: p in c.nodes ==> SameButApplied(c.nodes[p], c'.nodes[p])
    ensures forall p :: p in ps ==> c'.nodes[p].lastApplied == c.nodes[p].commitIndex
    decreases |ps|
  {
    if ps == [] {
      CanStay(c);
      c' := c;
    } else {
      var n := |ps| - 1;
      var b := AllApply(c, ps[..n]);
      assert forall p :: p in ps <==> p in ps[..n] || p == ps[n];
      c' := Applies(b, ps[n]);
      forall p | p in c.nodes ensures SameButApplied(c.nodes[p], c'.nodes[p]) {
        assert SameButApplied(c.nodes[p], b.nodes[p]);
      }
      CanTrans(c, b, c');
    }
  }

  lemma Applies(c: Cluster, p: NodeId) returns (c': Cluster)
    requires Consistent(c) && p in c.nodes
    ensures Can(c, c') && Consistent(c') && c'.peers == c.peers
    ensures p in c'.nodes && c'.nodes == c.nodes[p := c'.nodes[p]]
    ensures SameButApplied(c.nodes[p], c'.nodes[p]) && c'.nodes[p].lastApplied == c.nodes[p].commitIndex
  {
    PeersAre(c, p);
    CommitInLog(c, p);
    CanStep(c, Apply(p));
    c' := Do(c, Apply(p));
  }

  /** The step of the apply loop changes nothing that other nodes can see. */
  ghost predicate SameButApplied(s: NodeState, s': NodeState) {
    s' == s.(lastApplied := s'.lastApplied, held := s'.held, delivered := s'.delivered)
  }

  /** A leader that a majority can follow appends a client's command and commits it. */
  lemma CommitsAlone(c: Cluster, v: NodeId, ps: seq<NodeId>, command: Command) returns (c': Cluster)
    requires Consistent(c) && Follow(c, v, ps)
    ensures Can(c, c') && Consistent(c') && Follow(c', v, ps)
    ensures var s, n := c'.nodes[v], |c.nodes[v].log|;
      && s.log == c.nodes[v].log + [LogEntry(c.nodes[v].currentTerm, n, command)]
      && s.commitIndex == n && Answer(n, s.log[n]) in s.answers
  {
    var a := Do(c, Client(v, command));
    CanStep(c, Client(v, command));
    var b := AllCatchUp(a, v, ps);
    var s := b.nodes[v];
    CommitInLog(c, v);
    MajorityQuorate(s, b.peers[v], ps, |s.log| - 1);
    CanStep(b, Commit(v));
    c' := Do(b, Commit(v));
    CanTrans(c, a, b);
    CanTrans(c, b, c');
    CommitAnswersLast(s, b.peers[v]);
    forall p | p in ps ensures p in c'.nodes && c'.nodes[p].currentTerm <= c'.nodes[v].currentTerm {
      assert InStep(b, v, p);
    }
  }

  /** Then the next requests have the whole majority commit it as well, and each of them can apply it. */
  lemma Commits(c: Cluster, v: NodeId, ps: seq<NodeId>, command: Command) returns (c': Cluster)
    requires Consistent(c) && Follow(c, v, ps)
    ensures Can(c, c') && Consistent(c') && AllCommitted(c', v, ps)
    ensures c'.nodes[v].log == c.nodes[v].log + [LogEntry(c.nodes[v].currentTerm, |c.nodes[v].log|, command)]
  {
    var a := CommitsAlone(c, v, ps, command);
    var b := AllCatchUp(a, v, ps);
    c' := AllApply(b, ps + [v]);
    CanTrans(c, a, b);
    CanTrans(c, b, c');
    forall p | p in ps ensures UpToDate(c', v, p) {
      assert InStep(b, v, p);
      MatchHeld(b, v, p);
      assert p in ps + [v];
    }
  }

  lemma CommitAnswersLast(s: NodeState, peers: seq<NodeId>)
    requires s.role == Leader && -1 <= s.commitIndex < |s.log| - 1 && Quorate(s, peers, |s.log| - 1)
    requires var n := |s.log| - 1; n in s.pending && s.pending[n] == Future(s.log[n], false)
    ensures var s', n := AdvanceCommit(s, peers), |s.log| - 1;
      s'.commitIndex == n && s'.log == s.log && s'.role == Leader && Answer(n, s.log[n]) in s'.answers
  {
    var n := |s.log| - 1;
    var s' := AdvanceCommit(s, peers);
    assert NewestQuorate(s, peers, n) == n;
    assert s'.answers == s.answers + [Answer(n, s.log[n])];
  }

  // ---- Commitment below the end of the log ----

  /** The leader receives one successful answer that was sent for its term. */
  lemma Hears(c: Cluster, v: NodeId, p: NodeId, m: nat) returns (c': Cluster)
    requires Consistent(c) && v in c.nodes && p in c.nodes && c.nodes[v].role == Leader
    requires Answered(c.net, p, c.nodes[v].currentTerm, m)
    ensures Can(c, c') && Consistent(c') && c'.peers == c.peers && c'.net == c.net
    ensures v in c'.nodes && c'.nodes == c.nodes[v := c'.nodes[v]] && SameReign(c.nodes[v], c'.nodes[v])
    ensures MatchOf(c'.nodes[v], p) >= m && forall q :: MatchOf(c'.nodes[v], q) >= MatchOf(c.nodes[v], q)
  {
    var s := c.nodes[v];
    var req, resp :| AppendAnswer(req, p, resp) in c.net
      && resp.success && req.term == s.currentTerm && m <= req.prevLogIndex + |req.entries|;
    AnswerFits(c, v, p, req, resp);
    PeersAre(c, v);
    var reply := ReceiveReply(v, p, req, resp);
    CanStep(c, reply);
    c' := Do(c, reply);
    ReplyOutcome(s, p, req, resp);
    assert c'.net == c.net;
  }

  lemma AnswerFits(c: Cluster, v: NodeId, p: NodeId, req: AppendRequest, resp: AppendResponse)
    requires Consistent(c) && v in c.nodes && c.nodes[v].role == Leader && req.term == c.nodes[v].currentTerm
    requires AppendAnswer(req, p, resp) in c.net && resp.success
    ensures req.leader == v && resp.term == c.nodes[v].currentTerm
  {
    var h :| Inv(c, h);
    Know(c, h, Sent(AppendAnswer(req, p, resp)));
    LeaderFacts(c, h, v);
  }

  lemma {:induction false} HearsAll(c: Cluster, v: NodeId, ps: seq<NodeId>, m: nat) returns (c': Cluster)
    requires Consistent(c) && v in c.nodes && c.nodes[v].role == Leader
    requires forall p :: p in ps ==> p in c.nodes && Answered(c.net, p, c.nodes[v].currentTerm, m)
    ensures Can(c, c') && Consistent(c') && c'.peers == c.peers && c'.net == c.net
    ensures v in c'.nodes && c'.nodes == c.nodes[v := c'.nodes[v]] && SameReign(c.nodes[v], c'.nodes[v])
    ensures forall p :: p in ps ==> MatchOf(c'.nodes[v], p) >= m
    decreases |ps|
  {
    if ps == [] {
      CanStay(c);
      c' := c;
    } else {
      var n := |ps| - 1;
      var b := HearsAll(c, v, ps[..n], m);
      assert forall p :: p in ps <==> p in ps[..n] || p == ps[n];
      c' := Hears(b, v, ps[n], m);
      CanTrans(c, b, c');
    }
  }

  /** Once a majority's answers cover an entry of its term, the leader can commit it with no further request. */
  lemma CommitsAnswered(c: Cluster, v: NodeId, ps: seq<NodeId>, m: nat) returns (c': Cluster)
    requires Consistent(c) && v in c.nodes && c.nodes[v].role == Leader && v in c.peers
    requires m < |c.nodes[v].log| && c.nodes[v].log[m].term == c.nodes[v].currentTerm
    requires Distinct(ps) && 1 + |ps| >= Majority(c.peers[v])
    requires forall p :: p in ps ==> p in c.nodes && Answered(c.net, p, c.nodes[v].currentTerm, m)
    ensures Can(c, c') && Consistent(c') && c'.net == c.net && v in c'.nodes && c'.nodes == c.nodes[v := c'.nodes[v]]
    ensures c'.nodes[v].role == Leader && c'.nodes[v].log == c.nodes[v].log && c'.nodes[v].commitIndex >= m
  {
    var b := HearsAll(c, v, ps, m);
    var s := b.nodes[v];
    CommitInLog(b, v);
    MajorityQuorate(s, b.peers[v], ps, m);
    CommitReachesMajority(s, b.peers[v]);
    assert HeldByMajority(s, b.peers[v], m) by {
      assert Ackers(s, m) == set p | p in s.matchIndex && s.matchIndex[p] >= m;
    }
    CanStep(b, Commit(v));
    c' := Do(b, Commit(v));
    CanTrans(c, b, c');
    assert c'.net == c.net;
  }
}
