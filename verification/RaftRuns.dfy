/**
  The invariant over whole runs: one lemma for each kind of step, all of them together, and then induction over
  the run, which gives every state its history.
 */
module RaftRuns {
  import opened LockCommands
  import opened RaftSpec
  import opened RaftCluster
  import opened RaftInvariant
  import opened RaftStability
  import opened RaftSteps
  import opened RaftElection
  import opened RaftReplication
  import opened RaftLeader
  import opened Quorums

  lemma EvolvesTransitive(c: Cluster, h: History, c': Cluster, h': History, c'': Cluster, h'': History)
    requires Evolves(c, h, c', h') && Evolves(c', h', c'', h'')
    ensures Evolves(c, h, c'', h'')
  {
    forall t, p ensures GrowsAt(h, h'', t, p) && EvolvesAt(c, h, c'', h'', t, p) {
      assert GrowsAt(h, h', t, p) && EvolvesAt(c, h, c', h', t, p);
      assert GrowsAt(h', h'', t, p) && EvolvesAt(c', h', c'', h'', t, p);
    }
  }

  lemma EvolvesReflexive(c: Cluster, h: History)
    ensures Evolves(c, h, c, h)
  {
  }

  lemma CatchUpKeeps(c: Cluster, h: History, v: NodeId, t: nat)
    requires Inv(c, h) && v in c.nodes
    ensures Inv(Put(c, v, CatchUp(c.nodes[v], t), {}), h)
    ensures Evolves(c, h, Put(c, v, CatchUp(c.nodes[v], t), {}), h)
  {
    if t > c.nodes[v].currentTerm {
      StepDownKeeps(c, h, v, StepDown(c.nodes[v], t));
    } else {
      assert c.nodes[v := c.nodes[v]] == c.nodes && c.net + {} == c.net;
      assert Put(c, v, c.nodes[v], {}) == c;
      EvolvesReflexive(c, h);
    }
  }

  /** A refusal, and every other step that changes neither log, vote nor term. */
  lemma IdleKeeps(c: Cluster, h: History, v: NodeId, sent: set<Message>)
    requires Inv(c, h) && v in c.nodes
    requires forall m {:trigger m in sent} :: m in sent ==> MessageOk(c.nodes.Keys, h, m)
    ensures Inv(Put(c, v, c.nodes[v], sent), h) && Evolves(c, h, Put(c, v, c.nodes[v], sent), h)
  {
    NodeFacts(c, h, v);
    PutMoves(c, v, c.nodes[v], sent);
    QuietKeeps(c, h, Put(c, v, c.nodes[v], sent), v, sent);
  }

  // ---- One lemma for each kind of step ----

  lemma CollectKeeps(c: Cluster, h: History, v: NodeId, ask: VoteRequest, results: map<NodeId, VoteResponse>)
    requires Inv(c, h) && Enabled(c, Collect(v, ask, results))
    ensures var step := Collect(v, ask, results);
      Inv(Do(c, step), Record(c, h, step)) && Evolves(c, h, Do(c, step), Record(c, h, step))
  {
    var step := Collect(v, ask, results);
    var s := c.nodes[v];
    var s' := CollectVotes(s, v, c.peers[v], ask.term, results);
    PutMoves(c, v, s', {});
    if s.role != Candidate || s.currentTerm != ask.term {
      IdleKeeps(c, h, v, {});
    } else {
      var k := FirstNewer(c.peers[v], results, ask.term);
      var counted := s.(votesReceived := s.votesReceived + Granters(c.peers[v][..k], results));
      CountedCampaign(c, h, v, ask, results, k);
      if k < |c.peers[v]| {
        StepDownKeeps(c, h, v, s');
      } else if |counted.votesReceived| >= Majority(c.peers[v]) {
        CountedElected(c, h, v, counted);
        CollectWins(c, h, v, counted, Do(c, step), Record(c, h, step));
        WinKeeps(c, h, v, counted, Do(c, step), Record(c, h, step));
      } else {
        CountedKeeps(c, h, v, counted, Do(c, step));
      }
    }
  }

  lemma CountedKeeps(c: Cluster, h: History, v: NodeId, counted: NodeState, c': Cluster)
    requires Inv(c, h) && Moves(c, c', v, {}) && c'.nodes[v] == counted
    requires counted == c.nodes[v].(votesReceived := counted.votesReceived) && CampaignOk(c.nodes.Keys, h, v, counted)
    ensures Inv(c', h) && Evolves(c, h, c', h)
  {
    NodeFacts(c, h, v);
    AnswersStableSame(c.nodes.Keys, h, c.nodes[v], counted);
    QuietKeeps(c, h, c', v, {});
  }

  lemma AnswersStableSame(members: set<NodeId>, h: History, s: NodeState, s': NodeState)
    requires s'.answers == s.answers && s'.currentTerm == s.currentTerm && s'.commitIndex >= s.commitIndex
    requires forall i :: 0 <= i < |s.answers| ==> AnswerOk(members, h, s, s.answers[i])
    ensures forall i :: 0 <= i < |s'.answers| ==> AnswerOk(members, h, s', s'.answers[i])
  {
    assert Grows(h, h);
    AnswersStable(members, h, h, s, s');
  }

  lemma CountedCampaign(c: Cluster, h: History, v: NodeId, ask: VoteRequest, results: map<NodeId, VoteResponse>, k: nat)
    requires Inv(c, h) && Enabled(c, Collect(v, ask, results)) && k <= |c.peers[v]|
    requires c.nodes[v].role == Candidate && c.nodes[v].currentTerm == ask.term
    ensures var s := c.nodes[v];
      CampaignOk(c.nodes.Keys, h, v, s.(votesReceived := s.votesReceived + Granters(c.peers[v][..k], results)))
  {
    var s := c.nodes[v];
    Know(c, h, CampaignOf(v));
    forall p | p in Granters(c.peers[v][..k], results)
      ensures VotedFor(h, s.currentTerm, p, v) && p in c.nodes
    {
      Know(c, h, Sent(VoteAnswer(ask, p, results[p])));
    }
  }

  lemma CountedElected(c: Cluster, h: History, v: NodeId, counted: NodeState)
    requires Inv(c, h) && v in c.nodes && v in c.peers
    requires counted == c.nodes[v].(votesReceived := counted.votesReceived) && counted.role == Candidate
    requires CampaignOk(c.nodes.Keys, h, v, counted) && |counted.votesReceived| >= Majority(c.peers[v])
    ensures Elected(c, h, v, counted)
  {
    Know(c, h, Configuration);
    assert KnowsPeers(c, v);
  }

  lemma CollectWins(c: Cluster, h: History, v: NodeId, counted: NodeState, c': Cluster, h': History)
    requires Inv(c, h) && Elected(c, h, v, counted) && v in c.peers && Moves(c, c', v, {})
    requires c'.nodes[v] == BecomeLeader(counted, v, c.peers[v]) && h' == RecordWin(h, v, c'.nodes[v])
    ensures Wins(c, h, v, counted, c', h')
  {
    Know(c, h, Configuration);
    Know(c, h, PeersOf(v));
    assert KnowsPeers(c, v);
    BecomeLeaderIndices(counted, v, c.peers[v], c.nodes.Keys - {v});
  }

  lemma VoteKeeps(c: Cluster, h: History, v: NodeId, ask: VoteRequest)
    requires Inv(c, h) && Enabled(c, ReceiveVote(v, ask))
    ensures var step := ReceiveVote(v, ask);
      Inv(Do(c, step), Record(c, h, step)) && Evolves(c, h, Do(c, step), Record(c, h, step))
  {
    var step := ReceiveVote(v, ask);
    var s1 := CatchUp(c.nodes[v], ask.term);
    var c1 := Put(c, v, s1, {});
    CatchUpKeeps(c, h, v, ask.term);
    var (s2, r) := Vote(s1, ask);
    var sent := {VoteAnswer(ask, v, r)};
    PutMoves(c1, v, s2, sent);
    assert Put(c1, v, s2, sent) == Do(c, step) by {
      assert c.nodes[v := s1][v := s2] == c.nodes[v := s2] && c.net + {} + sent == c.net + sent;
    }
    if r.granted {
      GrantKeeps(c1, h, v, ask, Do(c, step), Record(c, h, step), sent);
    } else {
      IdleKeeps(c1, h, v, sent);
    }
    EvolvesTransitive(c, h, c1, h, Do(c, step), Record(c, h, step));
  }

  lemma ReceiveAppendKeeps(c: Cluster, h: History, v: NodeId, req: AppendRequest)
    requires Inv(c, h) && Enabled(c, ReceiveAppend(v, req))
    ensures var step := ReceiveAppend(v, req);
      Inv(Do(c, step), Record(c, h, step)) && Evolves(c, h, Do(c, step), Record(c, h, step))
  {
    var step := ReceiveAppend(v, req);
    if req.term < c.nodes[v].currentTerm {
      Know(c, h, Sent(AppendAsk(v, req)));
      IdleKeeps(c, h, v, {AppendAnswer(req, v, AppendResponse(c.nodes[v].currentTerm, false))});
    } else {
      var s1 := CatchUp(c.nodes[v], req.term);
      var c1 := Put(c, v, s1, {});
      CatchUpKeeps(c, h, v, req.term);
      var (s2, r) := AppendAtTerm(s1, req);
      var sent := {AppendAnswer(req, v, r)};
      PutMoves(c1, v, s2, sent);
      assert Put(c1, v, s2, sent) == Do(c, step) by {
        assert c.nodes[v := s1][v := s2] == c.nodes[v := s2] && c.net + {} + sent == c.net + sent;
      }
      ReceiveKeeps(c1, h, v, req, Do(c, step), Record(c, h, step), sent);
      EvolvesTransitive(c, h, c1, h, Do(c, step), Record(c, h, step));
    }
  }

  lemma ReplyKeeps(c: Cluster, h: History, v: NodeId, peer: NodeId, req: AppendRequest, resp: AppendResponse)
    requires Inv(c, h) && Enabled(c, ReceiveReply(v, peer, req, resp))
    ensures var step := ReceiveReply(v, peer, req, resp);
      Inv(Do(c, step), Record(c, h, step)) && Evolves(c, h, Do(c, step), Record(c, h, step))
  {
    var s' := HandleReply(c.nodes[v], peer, req, resp);
    if resp.term > c.nodes[v].currentTerm {
      StepDownKeeps(c, h, v, s');
    } else {
      NodeFacts(c, h, v);
      ReplyNode(c, h, v, peer, req, resp);
      AnswersStableSame(c.nodes.Keys, h, c.nodes[v], s');
      PutMoves(c, v, s', {});
      QuietKeeps(c, h, Put(c, v, s', {}), v, {});
    }
  }

  lemma SendKeeps(c: Cluster, h: History, v: NodeId, peer: NodeId)
    requires Inv(c, h) && Enabled(c, SendAppend(v, peer))
    ensures var step := SendAppend(v, peer);
      Inv(Do(c, step), Record(c, h, step)) && Evolves(c, h, Do(c, step), Record(c, h, step))
  {
    Know(c, h, Configuration);
    assert KnowsPeers(c, v);
    assert peer in (set p | p in c.peers[v]) && peer in c.nodes.Keys - {v};
    RequestOk(c, h, v, peer);
    IdleKeeps(c, h, v, {AppendAsk(peer, AppendRequestOf(c.nodes[v], v, peer))});
  }

  lemma CommitKeeps(c: Cluster, h: History, v: NodeId)
    requires Inv(c, h) && Enabled(c, Commit(v))
    ensures var step := Commit(v);
      Inv(Do(c, step), Record(c, h, step)) && Evolves(c, h, Do(c, step), Record(c, h, step))
  {
    var s' := AdvanceCommit(c.nodes[v], c.peers[v]);
    NodeFacts(c, h, v);
    CommitNode(c, h, v);
    PutMoves(c, v, s', {});
    QuietKeeps(c, h, Put(c, v, s', {}), v, {});
  }

  lemma ClientKeeps(c: Cluster, h: History, v: NodeId, command: Command)
    requires Inv(c, h) && Enabled(c, Client(v, command))
    ensures var step := Client(v, command);
      Inv(Do(c, step), Record(c, h, step)) && Evolves(c, h, Do(c, step), Record(c, h, step))
  {
    var step := Client(v, command);
    var s := c.nodes[v];
    if s.role == Leader {
      var entry := LogEntry(s.currentTerm, |s.log|, command);
      PutMoves(c, v, RaftSpec.AppendCommand(s, command).0, {});
      ExtendKeeps(c, h, v, entry, Do(c, step), Record(c, h, step));
    } else {
      IdleKeeps(c, h, v, {});
    }
  }

  lemma AbandonKeeps(c: Cluster, h: History, v: NodeId, index: int)
    requires Inv(c, h) && Enabled(c, Abandon(v, index))
    ensures var step := Abandon(v, index);
      Inv(Do(c, step), Record(c, h, step)) && Evolves(c, h, Do(c, step), Record(c, h, step))
  {
    var s' := GiveUp(c.nodes[v], index);
    NodeFacts(c, h, v);
    AnswersStableSame(c.nodes.Keys, h, c.nodes[v], s');
    PutMoves(c, v, s', {});
    QuietKeeps(c, h, Put(c, v, s', {}), v, {});
  }

  lemma ApplyKeeps(c: Cluster, h: History, v: NodeId)
    requires Inv(c, h) && Enabled(c, Apply(v))
    ensures var step := Apply(v);
      Inv(Do(c, step), Record(c, h, step)) && Evolves(c, h, Do(c, step), Record(c, h, step))
  {
    var s' := ApplyPass(c.nodes[v]);
    NodeFacts(c, h, v);
    AnswersStableSame(c.nodes.Keys, h, c.nodes[v], s');
    PutMoves(c, v, s', {});
    QuietKeeps(c, h, Put(c, v, s', {}), v, {});
  }

  lemma StepKeeps(c: Cluster, h: History, step: Step)
    requires Inv(c, h) && Enabled(c, step)
    ensures Inv(Do(c, step), Record(c, h, step)) && Evolves(c, h, Do(c, step), Record(c, h, step))
  {
    match step
    case Timeout(v) => TimeoutKeeps(c, h, v);
    case Collect(v, ask, results) => CollectKeeps(c, h, v, ask, results);
    case ReceiveVote(v, ask) => VoteKeeps(c, h, v, ask);
    case SendAppend(v, peer) => SendKeeps(c, h, v, peer);
    case ReceiveAppend(v, append) => ReceiveAppendKeeps(c, h, v, append);
    case ReceiveReply(v, peer, append, appended) => ReplyKeeps(c, h, v, peer, append, appended);
    case Commit(v) => CommitKeeps(c, h, v);
    case Client(v, command) => ClientKeeps(c, h, v, command);
    case Abandon(v, index) => AbandonKeeps(c, h, v, index);
    case Apply(v) => ApplyKeeps(c, h, v);
  }

  // ---- Runs ----

  lemma InitKeeps(c: Cluster)
    requires Init(c)
    ensures Inv(c, NO_HISTORY)
  {
  }

  /** A history for every state of a run: the invariant holds throughout, and history is only added to. */
  lemma {:induction false} RunHistories(states: seq<Cluster>, steps: seq<Step>) returns (hs: seq<History>)
    requires IsRun(states, steps)
    ensures |hs| == |states|
    ensures forall i :: 0 <= i < |hs| ==> Inv(states[i], hs[i])
    ensures forall i, j :: 0 <= i <= j < |hs| ==> Evolves(states[i], hs[i], states[j], hs[j])
    decreases |steps|
  {
    if |steps| == 0 {
      InitKeeps(states[0]);
      EvolvesReflexive(states[0], NO_HISTORY);
      hs := [NO_HISTORY];
    } else {
      var n := |steps| - 1;
      var states', steps' := states[..n + 1], steps[..n];
      forall i: nat | i < n ensures StepAt(states', steps', i) { assert StepAt(states, steps, i); }
      assert StepAt(states, steps, n);
      var before := RunHistories(states', steps');
      var c, h, step := states[n], before[n], steps[n];
      StepKeeps(c, h, step);
      var c', h' := states[n + 1], Record(c, h, step);
      EvolvesReflexive(c', h');
      hs := before + [h'];
      forall i | 0 <= i <= n
        ensures Evolves(states[i], hs[i], c', h')
      {
        EvolvesTransitive(states[i], hs[i], c, h, c', h');
      }
    }
  }

  /** Two points of one run, the first no later than the second, with what is known at each. */
  lemma TwoPoints(states: seq<Cluster>, steps: seq<Step>, i: nat, j: nat) returns (h: History, h': History)
    requires IsRun(states, steps) && i <= j < |states|
    ensures Inv(states[i], h) && Inv(states[j], h') && Evolves(states[i], h, states[j], h')
    ensures Grows(h, h') && states[i].nodes.Keys == states[j].nodes.Keys
  {
    var hs := RunHistories(states, steps);
    h, h' := hs[i], hs[j];
    EvolvesGrows(states[i], h, states[j], h');
  }

  // ---- What is committed, by whatever terms ----

  /** Prefixes committed by any two terms agree as far as both go. */
  lemma CommittedComparable(c: Cluster, h: History, t: nat, x: Log, k: int, u: nat, y: Log, m: int)
    requires Inv(c, h) && 0 <= k <= m && k <= |x| && m <= |y|
    requires CommittedBy(c.nodes.Keys, h, t, x, k) && CommittedBy(c.nodes.Keys, h, u, y, m)
    ensures Agree(x, y, k)
  {
    if k > 0 {
      var t1: nat, n1 :| t1 <= t && k <= n1 + 1 && Chosen(c.nodes.Keys, h, t1, n1) && Agree(x, h.termLog[t1], k);
      var t2: nat, n2 :| t2 <= u && m <= n2 + 1 && Chosen(c.nodes.Keys, h, t2, n2) && Agree(y, h.termLog[t2], m);
      ChosenPotential(c, h, t1, n1);
      ChosenPotential(c, h, t2, n2);
      Know(c, h, LeaderHolds(t1, n1, t2));
      Know(c, h, LeaderHolds(t2, n2, t1));
    }
  }

  /** An entry chosen although a later term had begun was there, and could be acknowledged, when that term began. */
  lemma ChosenEarlier(c: Cluster, h: History, c': Cluster, h': History, t: nat, n: int, u: nat)
    requires Inv(c, h) && Evolves(c, h, c', h') && u in h.leaderOf && t < u && Chosen(c'.nodes.Keys, h', t, n)
    ensures Potential(c, h, t, n) && Agree(h.termLog[t], h'.termLog[t], n + 1)
  {
    EvolvesGrows(c, h, c', h');
    Know(c, h, Configuration);
    Know(c, h, ElectionOf(u));
    var q :| Quorum(c'.nodes.Keys, q) && AllAcked(h', q, t, n);
    var x := QuorumsMeet(c.nodes.Keys, q, h.electors[u]);
    Know(c, h, VoteOf(At(u, x)));
    assert EvolvesAt(c, h, c', h', t, x) && GrowsAt(h, h', t, x);
    assert n <= Acked(h', At(t, x));
    Know(c, h, AckOf(At(t, x)));
    ChosenPotential(c', h', t, n);
    PotentialBack(c, h, c', h', t, n);
  }

  /** What is chosen is in the log of every leader of a later term, here seen later than the choice ... */
  lemma ChosenInLeader(c: Cluster, h: History, t: nat, n: int, c': Cluster, h': History, b: NodeId)
    requires Inv(c', h') && Evolves(c, h, c', h') && Chosen(c.nodes.Keys, h, t, n)
    requires b in c'.nodes && c'.nodes[b].role == Leader && t < c'.nodes[b].currentTerm
    ensures Agree(h.termLog[t], c'.nodes[b].log, n + 1)
  {
    EvolvesGrows(c, h, c', h');
    LeaderFacts(c', h', b);
    ChosenStable(c.nodes.Keys, h, h', t, n);
    ChosenPotential(c', h', t, n);
    Know(c', h', LeaderHolds(t, n, c'.nodes[b].currentTerm));
  }

  /** ... and here earlier: the leader was there before the choice was made. */
  lemma ChosenInEarlierLeader(c: Cluster, h: History, b: NodeId, c': Cluster, h': History, t: nat, n: int)
    requires Inv(c, h) && Evolves(c, h, c', h') && Chosen(c'.nodes.Keys, h', t, n)
    requires b in c.nodes && c.nodes[b].role == Leader && t < c.nodes[b].currentTerm
    ensures Agree(h'.termLog[t], c.nodes[b].log, n + 1)
  {
    var u := c.nodes[b].currentTerm;
    LeaderFacts(c, h, b);
    ChosenEarlier(c, h, c', h', t, n, u);
    Know(c, h, LeaderHolds(t, n, u));
  }

  ghost predicate Answered(net: set<Message>, p: NodeId, t: nat, n: int) {
    exists req, resp :: AppendAnswer(req, p, resp) in net
      && resp.success && req.term == t && n <= req.prevLogIndex + |req.entries|
  }

  /** A quorum of answers, with the leader's own entry, makes the entry chosen, whether or not the leader saw them. */
  lemma AnsweredChosen(c: Cluster, h: History, q: set<NodeId>, a: NodeId, t: nat, n: int)
    requires Inv(c, h) && Quorum(c.nodes.Keys, q) && OwnEntry(h, t, n) && n <= Acked(h, At(t, a))
    requires forall p :: p in q && p != a ==> Answered(c.net, p, t, n)
    ensures Chosen(c.nodes.Keys, h, t, n)
  {
    forall p | p in q ensures n <= Acked(h, At(t, p)) {
      if p != a {
        var req, resp :| AppendAnswer(req, p, resp) in c.net
          && resp.success && req.term == t && n <= req.prevLogIndex + |req.entries|;
        Know(c, h, Sent(AppendAnswer(req, p, resp)));
      }
    }
    assert AllAcked(h, q, t, n);
  }

  lemma {:induction false} NetGrows(states: seq<Cluster>, steps: seq<Step>, i: nat, j: nat)
    requires IsRun(states, steps) && i <= j < |states|
    ensures states[i].net <= states[j].net
    decreases j - i
  {
    if i < j {
      NetGrows(states, steps, i, j - 1);
      assert StepAt(states, steps, j - 1);
    }
  }

  lemma StepCommitRises(c: Cluster, h: History, step: Step, a: NodeId)
    requires Inv(c, h) && Enabled(c, step) && a in c.nodes
    ensures a in Do(c, step).nodes && c.nodes[a].commitIndex <= Do(c, step).nodes[a].commitIndex
  {
    if step.ReceiveAppend? && step.node == a && step.append.term >= c.nodes[a].currentTerm {
      CatchUpKeeps(c, h, a, step.append.term);
      var s := CatchUp(c.nodes[a], step.append.term);
      PutMoves(c, a, s, {});
      ReceiverCommit(Put(c, a, s, {}), h, a, step.append);
    }
  }

  lemma ChosenCommitted(c: Cluster, h: History, t: nat, answer: Answer, u: nat, log: Log, k: int)
    requires Inv(c, h) && ChosenEntry(c.nodes.Keys, h, t, answer.index, answer.entry)
    requires CommittedBy(c.nodes.Keys, h, u, log, k) && answer.index < k <= |log|
    ensures 0 <= answer.index && log[answer.index] == answer.entry && answer.entry.index == answer.index
  {
    var n := answer.index;
    var t1: nat :| t1 <= t && Chosen(c.nodes.Keys, h, t1, n) && h.termLog[t1][n] == answer.entry;
    Know(c, h, LogOfTerm(t1));
    assert CommittedBy(c.nodes.Keys, h, t, h.termLog[t1], n + 1);
    CommittedStable2(c.nodes.Keys, h, u, log, log, k);
    assert CommittedBy(c.nodes.Keys, h, u, log, k);
    CommittedComparable(c, h, t, h.termLog[t1], n + 1, u, log, k);
  }
}
