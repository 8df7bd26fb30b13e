/** What Raft is for, as theorems about any run.  No history appears in what they say. */
module RaftSafety {
  import opened RaftSpec
  import opened RaftCluster
  import opened RaftInvariant
  import opened RaftStability
  import opened RaftSteps
  import opened RaftEffects
  import opened RaftElection
  import opened RaftReplication
  import opened RaftLeader
  import opened RaftRuns
  import opened Quorums
  import opened Wrappers

  /** Position i of a run of the cluster, and node a in it. */
  ghost predicate InRun(states: seq<Cluster>, steps: seq<Step>, i: nat, a: NodeId) {
    IsRun(states, steps) && i < |states| && a in states[i].nodes
  }

  // ---- Section 5.2: election ----

  /** At most one node ever leads a term, whenever one looks. */
  lemma ElectionSafety(states: seq<Cluster>, steps: seq<Step>, i: nat, j: nat, a: NodeId, b: NodeId)
    requires InRun(states, steps, i, a) && InRun(states, steps, j, b)
    requires states[i].nodes[a].role == Leader && states[j].nodes[b].role == Leader
    requires states[i].nodes[a].currentTerm == states[j].nodes[b].currentTerm
    ensures a == b
  {
    if j < i {
      ElectionSafety(states, steps, j, i, b, a);
    } else {
      var h, h' := TwoPoints(states, steps, i, j);
      LeaderFacts(states[i], h, a);
      LeaderFacts(states[j], h', b);
      assert GrowsAt(h, h', states[i].nodes[a].currentTerm, a);
    }
  }

  // ---- Section 5.3: the log ----

  /** While it leads a term, a leader only appends to its log, whatever it receives. */
  lemma LeaderAppendOnly(states: seq<Cluster>, steps: seq<Step>, i: nat, j: nat, a: NodeId)
    requires InRun(states, steps, i, a) && InRun(states, steps, j, a) && i <= j
    requires states[i].nodes[a].role == Leader && states[j].nodes[a].role == Leader
    requires states[i].nodes[a].currentTerm == states[j].nodes[a].currentTerm
    ensures states[i].nodes[a].log <= states[j].nodes[a].log
  {
    var h, h' := TwoPoints(states, steps, i, j);
    LeaderFacts(states[i], h, a);
    LeaderFacts(states[j], h', a);
    assert GrowsAt(h, h', states[i].nodes[a].currentTerm, a);
  }

  /** Logs that hold entries of one term at one index are the same up to there; and indices are positions. */
  lemma LogMatching(states: seq<Cluster>, steps: seq<Step>, i: nat, j: nat, a: NodeId, b: NodeId, n: nat)
    requires InRun(states, steps, i, a) && InRun(states, steps, j, b)
    requires n < |states[i].nodes[a].log| && n < |states[j].nodes[b].log|
    requires states[i].nodes[a].log[n].term == states[j].nodes[b].log[n].term
    ensures states[i].nodes[a].log[..n + 1] == states[j].nodes[b].log[..n + 1]
    ensures states[i].nodes[a].log[n].index == n
  {
    if j < i {
      LogMatching(states, steps, j, i, b, a, n);
    } else {
      var h, h' := TwoPoints(states, steps, i, j);
      var x, y := states[i].nodes[a].log, states[j].nodes[b].log;
      Know(states[i], h, LogOf(a));
      Know(states[j], h', LogOf(b));
      GenuineStable(h, h', x);
      GenuineAgree(h', x, y, n);
      GenuineSorted(states[j], h', y);
    }
  }

  /** No handler indexes past a log: the guards of `SendAppend` and `Apply` never bar a leader or an apply pass. */
  lemma IndicesInRange(states: seq<Cluster>, steps: seq<Step>, i: nat, a: NodeId, peer: NodeId)
    requires InRun(states, steps, i, a)
    ensures states[i].nodes[a].role == Leader ==> 0 <= NextOf(states[i].nodes[a], peer) <= |states[i].nodes[a].log|
    ensures -1 <= states[i].nodes[a].lastApplied <= states[i].nodes[a].commitIndex < |states[i].nodes[a].log|
  {
    var h, _ := TwoPoints(states, steps, i, i);
    Know(states[i], h, PeersOf(a));
    Know(states[i], h, CommitOf(a));
  }

  // ---- Section 5.4: safety ----

  /** Whatever two nodes, at whatever times, have both committed, they have committed the same. */
  lemma StateMachineSafety(states: seq<Cluster>, steps: seq<Step>, i: nat, j: nat, a: NodeId, b: NodeId, n: nat)
    requires InRun(states, steps, i, a) && InRun(states, steps, j, b)
    requires n <= states[i].nodes[a].commitIndex && n <= states[j].nodes[b].commitIndex
    ensures n < |states[i].nodes[a].log| && n < |states[j].nodes[b].log|
    ensures states[i].nodes[a].log[..n + 1] == states[j].nodes[b].log[..n + 1]
  {
    if j < i {
      StateMachineSafety(states, steps, j, i, b, a, n);
    } else {
      var h, h' := TwoPoints(states, steps, i, j);
      var s, r := states[i].nodes[a], states[j].nodes[b];
      Know(states[i], h, CommitOf(a));
      Know(states[j], h', CommitOf(b));
      CommittedStable(states[i].nodes.Keys, h, h', s.currentTerm, s.currentTerm, s.log, s.log, s.commitIndex + 1);
      if s.commitIndex <= r.commitIndex {
        CommittedComparable(states[j], h', s.currentTerm, s.log, s.commitIndex + 1, r.currentTerm, r.log,
          r.commitIndex + 1);
      } else {
        CommittedComparable(states[j], h', r.currentTerm, r.log, r.commitIndex + 1, s.currentTerm, s.log,
          s.commitIndex + 1);
      }
    }
  }

  /** An entry of its own term that a majority acknowledged to a leader is in the log of every later leader. */
  lemma LeaderCompleteness(states: seq<Cluster>, steps: seq<Step>, i: nat, j: nat, a: NodeId, b: NodeId, n: nat)
    requires InRun(states, steps, i, a) && InRun(states, steps, j, b) && a in states[i].peers
    requires states[i].nodes[a].role == Leader && states[j].nodes[b].role == Leader
    requires states[i].nodes[a].currentTerm < states[j].nodes[b].currentTerm
    requires n < |states[i].nodes[a].log| && Quorate(states[i].nodes[a], states[i].peers[a], n)
    ensures n < |states[j].nodes[b].log|
    ensures states[i].nodes[a].log[..n + 1] == states[j].nodes[b].log[..n + 1]
  {
    var t := states[i].nodes[a].currentTerm;
    if i <= j {
      var h, h' := TwoPoints(states, steps, i, j);
      LeaderFacts(states[i], h, a);
      QuorateChosen(states[i], h, a, n);
      ChosenInLeader(states[i], h, t, n, states[j], h', b);
    } else {
      var h', h := TwoPoints(states, steps, j, i);
      LeaderFacts(states[i], h, a);
      QuorateChosen(states[i], h, a, n);
      ChosenInEarlierLeader(states[j], h', b, states[i], h, t, n);
    }
  }

  /**
    The leader need not have counted, or even still lead: once successful answers from the rest of a quorum have been
    sent, at any point k, the entry is in the log of every later leader.
   */
  lemma AnsweredCompleteness(
    states: seq<Cluster>, steps: seq<Step>, i: nat, k: nat, j: nat, a: NodeId, b: NodeId, q: set<NodeId>, n: nat)
    requires InRun(states, steps, i, a) && InRun(states, steps, j, b) && k < |states|
    requires states[i].nodes[a].role == Leader && states[j].nodes[b].role == Leader
    requires states[i].nodes[a].currentTerm < states[j].nodes[b].currentTerm
    requires n < |states[i].nodes[a].log| && states[i].nodes[a].log[n].term == states[i].nodes[a].currentTerm
    requires Quorum(states[i].nodes.Keys, q)
    requires forall p :: p in q && p != a ==> Answered(states[k].net, p, states[i].nodes[a].currentTerm, n)
    ensures n < |states[j].nodes[b].log|
    ensures states[i].nodes[a].log[..n + 1] == states[j].nodes[b].log[..n + 1]
  {
    var t, m := states[i].nodes[a].currentTerm, if i <= k then k else i;
    var hs := RunHistories(states, steps);
    LeaderFacts(states[i], hs[i], a);
    EvolvesGrows(states[i], hs[i], states[m], hs[m]);
    assert GrowsAt(hs[i], hs[m], t, a);
    NetGrows(states, steps, k, m);
    AnswersStay(states[k].net, states[m].net, q, a, t, n);
    AnsweredChosen(states[m], hs[m], q, a, t, n);
    if m <= j {
      ChosenInLeader(states[m], hs[m], t, n, states[j], hs[j], b);
    } else {
      ChosenInEarlierLeader(states[j], hs[j], b, states[m], hs[m], t, n);
    }
  }

  lemma AnswersStay(net: set<Message>, net': set<Message>, q: set<NodeId>, a: NodeId, t: nat, n: int)
    requires net <= net' && forall p :: p in q && p != a ==> Answered(net, p, t, n)
    ensures forall p :: p in q && p != a ==> Answered(net', p, t, n)
  {
  }

  /** What any node has committed is in the log of every leader of a later term, and of its own term from then on. */
  lemma CommittedCompleteness(states: seq<Cluster>, steps: seq<Step>, i: nat, j: nat, a: NodeId, b: NodeId, n: nat)
    requires InRun(states, steps, i, a) && InRun(states, steps, j, b) && states[j].nodes[b].role == Leader
    requires n <= states[i].nodes[a].commitIndex
    requires var t, u := states[i].nodes[a].currentTerm, states[j].nodes[b].currentTerm; t < u || (t == u && i <= j)
    ensures n < |states[i].nodes[a].log| && n < |states[j].nodes[b].log|
    ensures states[i].nodes[a].log[..n + 1] == states[j].nodes[b].log[..n + 1]
  {
    var s, r := states[i].nodes[a], states[j].nodes[b];
    var hs := RunHistories(states, steps);
    var c, h, c', h' := states[i], hs[i], states[j], hs[j];
    Know(c, h, CommitOf(a));
    var t: nat, m :| t <= s.currentTerm && s.commitIndex <= m && Chosen(c.nodes.Keys, h, t, m)
                     && Agree(s.log, h.termLog[t], s.commitIndex + 1);
    if t == r.currentTerm {
      EvolvesGrows(c, h, c', h');
      LeaderFacts(c', h', b);
      assert GrowsAt(h, h', t, b);
    } else if i <= j {
      ChosenInLeader(c, h, t, m, c', h', b);
    } else {
      ChosenInEarlierLeader(c', h', b, c, h, t, m);
    }
  }

  lemma StepAtRises(states: seq<Cluster>, steps: seq<Step>, i: nat, a: NodeId)
    requires InRun(states, steps, i, a) && i < |steps|
    ensures a in states[i + 1].nodes && states[i].nodes[a].commitIndex <= states[i + 1].nodes[a].commitIndex
  {
    assert StepAt(states, steps, i);
    var h, _ := TwoPoints(states, steps, i, i);
    StepCommitRises(states[i], h, steps[i], a);
  }

  lemma {:induction false} CommitRises(states: seq<Cluster>, steps: seq<Step>, i: nat, j: nat, a: NodeId)
    requires InRun(states, steps, i, a) && i <= j < |states|
    ensures a in states[j].nodes && states[i].nodes[a].commitIndex <= states[j].nodes[a].commitIndex
    decreases j - i
  {
    if i < j {
      CommitRises(states, steps, i, j - 1, a);
      StepAtRises(states, steps, j - 1, a);
    }
  }

  /** Commit indices never fall, and what was committed at a node stays in its log as it was. */
  lemma CommittedNeverCut(states: seq<Cluster>, steps: seq<Step>, i: nat, j: nat, a: NodeId)
    requires InRun(states, steps, i, a) && InRun(states, steps, j, a) && i <= j
    ensures var s, s' := states[i].nodes[a], states[j].nodes[a];
      -1 <= s.commitIndex <= s'.commitIndex < |s'.log| && s.commitIndex < |s.log|
      && s.log[..s.commitIndex + 1] == s'.log[..s.commitIndex + 1]
  {
    CommitRises(states, steps, i, j, a);
    IndicesInRange(states, steps, i, a, a);
    IndicesInRange(states, steps, j, a, a);
    if states[i].nodes[a].commitIndex >= 0 {
      StateMachineSafety(states, steps, i, j, a, a, states[i].nodes[a].commitIndex);
    }
  }

  // ---- What this code adds to the protocol of the paper ----

  /**
    The follower takes the end of its whole log, not the last new entry, as the bound for its commit index.
    Every request carries the leader's whole suffix, so the leader's commit index never lies beyond what the
    request verified, and the shortcut is the rule of section 5.3.
   */
  lemma CommitShortcutExact(states: seq<Cluster>, steps: seq<Step>, i: nat, a: NodeId, req: AppendRequest)
    requires InRun(states, steps, i, a) && AppendAsk(a, req) in states[i].net
    ensures -1 <= req.prevLogIndex && req.leaderCommit <= req.prevLogIndex + |req.entries|
    ensures var s := states[i].nodes[a]; var (s', r) := HandleAppend(s, req);
      r.success ==> s'.commitIndex == if req.leaderCommit > s.commitIndex
                                      then Min(req.leaderCommit, req.prevLogIndex + |req.entries|) else s.commitIndex
  {
    var h, _ := TwoPoints(states, steps, i, i);
    Know(states[i], h, Sent(AppendAsk(a, req)));
    if req.term >= states[i].nodes[a].currentTerm {
      CatchUpKeeps(states[i], h, a, req.term);
      var s := CatchUp(states[i].nodes[a], req.term);
      PutMoves(states[i], a, s, {});
      ReceiverCommit(Put(states[i], a, s, {}), h, a, req);
    }
  }

  /**
    match_index is truthful: while a leads its term, a peer in that term holds the leader's entries up to the
    match index, from then on and whatever old requests still arrive.
   */
  lemma MatchIndexTruthful(states: seq<Cluster>, steps: seq<Step>, i: nat, j: nat, a: NodeId, p: NodeId, n: nat)
    requires InRun(states, steps, i, a) && InRun(states, steps, j, p) && i <= j
    requires states[i].nodes[a].role == Leader && p in states[i].nodes[a].matchIndex
    requires n <= states[i].nodes[a].matchIndex[p]
    requires states[j].nodes[p].currentTerm == states[i].nodes[a].currentTerm
    ensures n < |states[i].nodes[a].log| && n < |states[j].nodes[p].log|
    ensures states[i].nodes[a].log[..n + 1] == states[j].nodes[p].log[..n + 1]
  {
    var t := states[i].nodes[a].currentTerm;
    var h, h' := TwoPoints(states, steps, i, j);
    LeaderFacts(states[i], h, a);
    Know(states[i], h, PeersOf(a));
    Know(states[i], h, AckOf(At(t, p)));
    Know(states[j], h', AckOf(At(t, p)));
    assert GrowsAt(h, h', t, p);
  }

  /** A positive answer is truthful when given and stays so: its sender holds what the request brought it up to. */
  lemma AnswerHolds(
    states: seq<Cluster>, steps: seq<Step>, i: nat, j: nat, a: NodeId, p: NodeId, req: AppendRequest,
      resp: AppendResponse)
    requires InRun(states, steps, i, a) && InRun(states, steps, j, p)
    requires states[i].nodes[a].role == Leader && states[i].nodes[a].currentTerm == req.term
    requires AppendAnswer(req, p, resp) in states[j].net && resp.success
    requires states[j].nodes[p].currentTerm == req.term
    ensures Agree(states[j].nodes[p].log, states[i].nodes[a].log,
                  Min(|states[i].nodes[a].log|, req.prevLogIndex + 1 + |req.entries|))
  {
    var k := At(req.term, p);
    if i <= j {
      var h, h' := TwoPoints(states, steps, i, j);
      LeaderFacts(states[i], h, a);
      Know(states[j], h', Sent(AppendAnswer(req, p, resp)));
      Know(states[j], h', AckOf(k));
      assert GrowsAt(h, h', req.term, p);
    } else {
      var h', h := TwoPoints(states, steps, j, i);
      LeaderFacts(states[i], h, a);
      Know(states[j], h', Sent(AppendAnswer(req, p, resp)));
      Know(states[j], h', AckOf(k));
      assert GrowsAt(h', h, req.term, p);
    }
  }

  /**
    A "committed at index n" reply tells the truth: the call it answers had appended entry n itself, the
    answering node has that entry, and no node ever commits another one there.
   */
  lemma AnswersTruthful(states: seq<Cluster>, steps: seq<Step>, i: nat, j: nat, a: NodeId, b: NodeId, answer: Answer)
    requires InRun(states, steps, i, a) && InRun(states, steps, j, b)
    requires answer in states[i].nodes[a].answers && answer.index <= states[j].nodes[b].commitIndex
    ensures answer.index <= states[i].nodes[a].commitIndex
    ensures 0 <= answer.index < |states[j].nodes[b].log|
    ensures states[j].nodes[b].log[answer.index] == answer.entry && answer.entry.index == answer.index
  {
    var m := if i <= j then j else i;
    var hs := RunHistories(states, steps);
    var s, r := states[i].nodes[a], states[j].nodes[b];
    EvolvesGrows(states[i], hs[i], states[m], hs[m]);
    EvolvesGrows(states[j], hs[j], states[m], hs[m]);
    Know(states[i], hs[i], ClientsOf(a));
    Know(states[j], hs[j], CommitOf(b));
    var members := states[m].nodes.Keys;
    ChosenEntryStable(members, hs[i], hs[m], s.currentTerm, s.currentTerm, answer.index, answer.entry);
    CommittedStable(members, hs[j], hs[m], r.currentTerm, r.currentTerm, r.log, r.log, r.commitIndex + 1);
    ChosenCommitted(states[m], hs[m], s.currentTerm, answer, r.currentTerm, r.log, r.commitIndex + 1);
  }

  /**
    Committing answers the call waiting at the new commit index and no other: every call whose entry has just been
    committed is answered if and only if none waits strictly between the old commit index and the new one.
   */
  lemma CommitAnswersAllIff(s: NodeState, peers: seq<NodeId>)
    requires -1 <= s.commitIndex
    ensures var s' := AdvanceCommit(s, peers);
      (forall n :: s.commitIndex < n <= s'.commitIndex && Waiting(s, n) ==>
         !Waiting(s', n) && Answer(n, s.pending[n].entry) in s'.answers)
      <==> forall n :: s.commitIndex < n < s'.commitIndex ==> !Waiting(s, n)
  {
    var s' := AdvanceCommit(s, peers);
    forall n | s.commitIndex < n < s'.commitIndex ensures Waiting(s', n) <==> Waiting(s, n) {}
    if s.commitIndex < s'.commitIndex && Waiting(s, s'.commitIndex) {
      assert s'.answers == s.answers + [Answer(s'.commitIndex, s.pending[s'.commitIndex].entry)];
    }
  }

  // ---- Whom a client is sent to ----

  /** b has led term t at point i of the run or earlier. */
  ghost predicate LedBy(states: seq<Cluster>, i: nat, b: NodeId, t: nat) {
    exists j: nat :: j <= i && j < |states| && LeadsAt(states[j], b, t)
  }

  ghost predicate LeadsAt(c: Cluster, b: NodeId, t: nat) {
    b in c.nodes && c.nodes[b].role == Leader && c.nodes[b].currentTerm == t
  }

  lemma LedLonger(states: seq<Cluster>, i: nat, k: nat, b: NodeId, t: nat)
    requires LedBy(states, i, b, t) && i <= k
    ensures LedBy(states, k, b, t)
  {
    var j: nat :| j <= i && j < |states| && LeadsAt(states[j], b, t);
    assert LeadsAt(states[j], b, t);
  }

  /** Every request was sent by the leader of its term. */
  lemma {:induction false} SentByLeader(states: seq<Cluster>, steps: seq<Step>, i: nat, to: NodeId, req: AppendRequest)
    requires IsRun(states, steps) && i < |states| && AppendAsk(to, req) in states[i].net
    ensures LedBy(states, i, req.leader, req.term)
    decreases i
  {
    if i > 0 {
      assert StepAt(states, steps, i - 1);
      if AppendAsk(to, req) in states[i - 1].net {
        SentByLeader(states, steps, i - 1, to, req);
        LedLonger(states, i - 1, i, req.leader, req.term);
      } else {
        assert LeadsAt(states[i - 1], req.leader, req.term);
      }
    }
  }

  /** The leader that node a names has led a term no newer than a's own. */
  ghost predicate NamesALeader(states: seq<Cluster>, i: nat, s: NodeState) {
    s.currentLeader.Some? ==> exists t: nat :: t <= s.currentTerm && LedBy(states, i, s.currentLeader.value, t)
  }

  /**
    A node that leads names itself, and whomever a node names, to clients it turns away, has led: in the node's own term
    or an earlier one.
   */
  lemma {:induction false} NamedLeaderLed(states: seq<Cluster>, steps: seq<Step>, i: nat, a: NodeId)
    requires InRun(states, steps, i, a)
    ensures var s := states[i].nodes[a];
      (s.role == Leader ==> s.currentLeader == Some(a)) && NamesALeader(states, i, s)
    decreases i
  {
    if i == 0 {
      assert states[0].nodes[a] == INITIAL;
    } else {
      assert StepAt(states, steps, i - 1);
      var c, step, s, s' := states[i - 1], steps[i - 1], states[i - 1].nodes[a], states[i].nodes[a];
      NamedLeaderLed(states, steps, i - 1, a);
      if step.node == a && step.ReceiveAppend? && step.append.term >= s.currentTerm {
        ReceiverNames(states, steps, i - 1, a, step.append);
      } else {
        NameKept(c, step, a);
        if s'.currentLeader == s.currentLeader {
          NamesLonger(states, i - 1, i, s, s');
        } else {
          assert LeadsAt(states[i], a, s'.currentTerm);
          NamesLed(states, i, s', s'.currentTerm);
        }
      }
    }
  }

  lemma ReceiverNames(states: seq<Cluster>, steps: seq<Step>, i: nat, a: NodeId, req: AppendRequest)
    requires InRun(states, steps, i, a) && i < |steps| && steps[i] == ReceiveAppend(a, req)
    requires req.term >= states[i].nodes[a].currentTerm
    ensures a in states[i + 1].nodes
    ensures var s' := states[i + 1].nodes[a];
      (s'.role == Leader ==> s'.currentLeader == Some(a)) && NamesALeader(states, i + 1, s')
  {
    assert StepAt(states, steps, i);
    var s, s' := states[i].nodes[a], states[i + 1].nodes[a];
    SentByLeader(states, steps, i, a, req);
    RequestOutcome(s, req);
    LedLonger(states, i, i + 1, req.leader, req.term);
    NamesLed(states, i + 1, s', req.term);
    if s'.role == Leader { LeaderNamed(states, steps, i, a, req); }
  }

  lemma NamesLed(states: seq<Cluster>, i: nat, s: NodeState, t: nat)
    requires s.currentLeader.Some? && t <= s.currentTerm && LedBy(states, i, s.currentLeader.value, t)
    ensures NamesALeader(states, i, s)
  {
  }

  lemma NamesLonger(states: seq<Cluster>, i: nat, k: nat, s: NodeState, s': NodeState)
    requires NamesALeader(states, i, s) && i <= k
    requires s'.currentLeader == s.currentLeader && s.currentTerm <= s'.currentTerm
    ensures NamesALeader(states, k, s')
  {
    if s.currentLeader.Some? {
      var t: nat :| t <= s.currentTerm && LedBy(states, i, s.currentLeader.value, t);
      LedLonger(states, i, k, s.currentLeader.value, t);
    }
  }

  lemma LeaderNamed(states: seq<Cluster>, steps: seq<Step>, i: nat, a: NodeId, req: AppendRequest)
    requires InRun(states, steps, i, a) && LeadsAt(states[i], a, req.term) && LedBy(states, i, req.leader, req.term)
    ensures req.leader == a
  {
    var j: nat :| j <= i && j < |states| && LeadsAt(states[j], req.leader, req.term);
    ElectionSafety(states, steps, j, i, req.leader, a);
  }

  lemma NameKept(c: Cluster, step: Step, a: NodeId)
    requires Enabled(c, step) && a in c.nodes
    requires !(step.node == a && step.ReceiveAppend? && step.append.term >= c.nodes[a].currentTerm)
    ensures a in Do(c, step).nodes
    ensures var s, s' := c.nodes[a], Do(c, step).nodes[a];
      && s.currentTerm <= s'.currentTerm
      && (s'.role == Leader ==> s.role == Leader || s'.currentLeader == Some(a))
      && (s'.currentLeader == s.currentLeader || (s'.role == Leader && s'.currentLeader == Some(a)))
  {
  }
}
