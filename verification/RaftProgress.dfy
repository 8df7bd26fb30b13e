/** No reachable state is stuck: a majority that is heard can still elect a leader and commit. */
module RaftProgress {
  // These are possibilities, not fairness: they say that a run can go on so, not that it will.

  import opened LockCommands
  import opened Quorums
  import opened RaftCatchUps
  import opened RaftCluster
  import opened RaftFutures
  import opened RaftRuns
  import opened RaftSafety
  import opened RaftSpec
  import opened Sequences
  import opened Wrappers

  // ---- Election ----

  /** A leader learns of a newer term from the answer to its next request. */
  lemma StepsAside(c: Cluster, v: NodeId, p: NodeId) returns (c': Cluster)
    requires Consistent(c) && v in c.nodes && p in c.nodes && p != v && c.nodes[v].role == Leader
    requires c.nodes[p].currentTerm > c.nodes[v].currentTerm
    ensures Can(c, c') && Consistent(c') && c'.peers == c.peers
    ensures c'.nodes == c.nodes[v := StepDown(c.nodes[v], c.nodes[p].currentTerm)]
  {
    c' := Exchange(c, v, p);
  }

  /** Elections time out until the term is past t. */
  lemma {:induction false} Campaigns(c: Cluster, v: NodeId, t: nat) returns (c': Cluster)
    requires Consistent(c) && v in c.nodes && c.nodes[v].role != Leader
    ensures Can(c, c') && Consistent(c') && c'.peers == c.peers
    ensures v in c'.nodes && c'.nodes == c.nodes[v := c'.nodes[v]]
    ensures var s := c'.nodes[v];
      && s.role == Candidate && s.currentTerm > t && s.log == c.nodes[v].log && s.votesReceived == {v}
      && VoteAsk(VoteRequestOf(s, v)) in c'.net
    decreases t - c.nodes[v].currentTerm
  {
    PeersAre(c, v);
    CanStep(c, Timeout(v));
    var b := Do(c, Timeout(v));
    if b.nodes[v].currentTerm > t {
      c' := b;
    } else {
      c' := Campaigns(b, v, t);
      CanTrans(c, b, c');
    }
  }

  /** p is behind the request's term, or in it with its vote to give, and its log is no newer than the candidate's. */
  ghost predicate Supporter(c: Cluster, ask: VoteRequest, p: NodeId) {
    && p in c.nodes && p != ask.candidate && LogUpToDate(ask, c.nodes[p].log)
    && (c.nodes[p].currentTerm < ask.term
        || (c.nodes[p].currentTerm == ask.term && c.nodes[p].votedFor in {None, Some(ask.candidate)}))
  }

  ghost predicate Supports(c: Cluster, ask: VoteRequest, p: NodeId) {
    VoteAnswer(ask, p, VoteResponse(ask.term, true)) in c.net && p in c.nodes && c.nodes[p].currentTerm == ask.term
  }

  /** Everyone on the list grants the vote. */
  lemma {:induction false} AllVote(c: Cluster, ask: VoteRequest, ps: seq<NodeId>) returns (c': Cluster)
    requires Consistent(c) && VoteAsk(ask) in c.net && Distinct(ps) && forall p :: p in ps ==> Supporter(c, ask, p)
    ensures Can(c, c') && Consistent(c') && c'.peers == c.peers && c'.nodes.Keys == c.nodes.Keys && c.net <= c'.net
    ensures forall p :: p in ps ==> Supports(c', ask, p)
    ensures forall w :: w in c.nodes && w !in ps ==> c'.nodes[w] == c.nodes[w]
    decreases |ps|
  {
    if ps == [] {
      CanStay(c);
      c' := c;
    } else {
      var n := |ps| - 1;
      var p := ps[n];
      var b := AllVote(c, ask, ps[..n]);
      assert Supporter(c, ask, p) && p !in ps[..n];
      PeersAre(b, p);
      CanStep(b, ReceiveVote(p, ask));
      c' := Do(b, ReceiveVote(p, ask));
      assert Supports(c', ask, p);
      forall q | q in ps ensures Supports(c', ask, q) {
        if q != p { assert Supports(b, ask, q); }
      }
      CanTrans(c, b, c');
    }
  }

  function Grants(ps: seq<NodeId>, term: nat): (m: map<NodeId, VoteResponse>)
    ensures forall p :: p in m <==> p in ps
    ensures forall p {:trigger m[p]} :: p in m ==> m[p] == VoteResponse(term, true)
  {
    if ps == [] then map[] else Grants(ps[..|ps| - 1], term)[ps[|ps| - 1] := VoteResponse(term, true)]
  }

  lemma CollectsMajority(s: NodeState, v: NodeId, peers: seq<NodeId>, ps: seq<NodeId>)
    requires s.role == Candidate && v in s.votesReceived && v !in ps && Distinct(ps) && 1 + |ps| >= Majority(peers)
    requires forall p :: p in ps ==> p in peers
    ensures var s' := CollectVotes(s, v, peers, s.currentTerm, Grants(ps, s.currentTerm));
      s'.role == Leader && s'.currentTerm == s.currentTerm && s'.log == s.log
  {
    var results := Grants(ps, s.currentTerm);
    var k := FirstNewer(peers, results, s.currentTerm);
    assert k == |peers| && peers[..k] == peers;
    var votes := s.votesReceived + Granters(peers, results);
    DistinctSize(ps);
    assert Elements(ps) + {v} <= votes;
    SubsetSize(Elements(ps) + {v}, votes);
  }

  /** A candidate whose log is at least as new as a majority's wins. */
  lemma Wins(c: Cluster, v: NodeId, ps: seq<NodeId>) returns (c': Cluster)
    requires Consistent(c) && v in c.nodes && c.nodes[v].role != Leader && v in c.peers
    requires Distinct(ps) && 1 + |ps| >= Majority(c.peers[v])
    requires forall p :: p in ps ==> p in c.nodes && p != v && AtLeastAsNew(c.nodes[v].log, c.nodes[p].log)
    ensures Can(c, c') && Consistent(c') && Follow(c', v, ps)
  {
    var t := HighestTerm(c, ps);
    var a := Campaigns(c, v, t);
    var s := a.nodes[v];
    var ask := VoteRequestOf(s, v);
    forall p | p in ps ensures Supporter(a, ask, p) {}
    var b := AllVote(a, ask, ps);
    PeersAre(b, v);
    var results := Grants(ps, ask.term);
    forall p | p in results ensures VoteAnswer(ask, p, results[p]) in b.net { assert Supports(b, ask, p); }
    var collect := Collect(v, ask, results);
    CanStep(b, collect);
    c' := Do(b, collect);
    CollectsMajority(s, v, b.peers[v], ps);
    forall p | p in ps ensures c'.nodes[p].currentTerm <= c'.nodes[v].currentTerm { assert Supports(b, ask, p); }
    CanTrans(c, a, b);
    CanTrans(c, b, c');
  }

  predicate AtLeastAsNew(a: Log, b: Log) {
    LastTerm(a) > LastTerm(b) || (LastTerm(a) == LastTerm(b) && |a| >= |b|)
  }

  lemma {:induction false} HighestTerm(c: Cluster, ps: seq<NodeId>) returns (t: nat)
    requires forall p :: p in ps ==> p in c.nodes
    ensures forall p :: p in ps ==> c.nodes[p].currentTerm <= t
    decreases |ps|
  {
    if ps == [] {
      t := 0;
    } else {
      var n := |ps| - 1;
      t := HighestTerm(c, ps[..n]);
      if t < c.nodes[ps[n]].currentTerm { t := c.nodes[ps[n]].currentTerm; }
      assert forall p :: p in ps ==> p in ps[..n] || p == ps[n];
    }
  }

  lemma {:induction false} Newest(c: Cluster, q: set<NodeId>) returns (v: NodeId)
    requires q != {} && q <= c.nodes.Keys
    ensures v in q && forall p :: p in q ==> AtLeastAsNew(c.nodes[v].log, c.nodes[p].log)
    decreases |q|
  {
    v :| v in q;
    if q != {v} {
      var w := Newest(c, q - {v});
      if !AtLeastAsNew(c.nodes[v].log, c.nodes[w].log) { v := w; }
    }
  }

  /** Any majority can bring one of its members to lead it. */
  lemma Elects(c: Cluster, q: set<NodeId>) returns (c': Cluster, v: NodeId, ps: seq<NodeId>)
    requires Consistent(c) && Quorum(c.nodes.Keys, q)
    ensures Can(c, c') && Consistent(c') && Follow(c', v, ps) && q == Elements(ps) + {v}
  {
    assert q != {};
    v := Newest(c, q);
    ps := Listed(q - {v});
    PeersAre(c, v);
    assert 1 + |ps| >= Majority(c.peers[v]);
    forall p | p in ps ensures p in q && p != v { assert p in Elements(ps); }
    if c.nodes[v].role != Leader {
      c' := Wins(c, v, ps);
    } else if p :| p in ps && c.nodes[p].currentTerm > c.nodes[v].currentTerm {
      var b := StepsAside(c, v, p);
      c' := Wins(b, v, ps);
      CanTrans(c, b, c');
    } else {
      CanStay(c);
      c' := c;
    }
  }

  // ---- Over runs ----

  /**
    After any run whatever, and for any majority, the run can go on so that a member of the majority leads, takes a
    client's command, commits it and answers the call, and every member has committed and applied the leader's log.
   */
  lemma MajorityCanCommit(states: seq<Cluster>, steps: seq<Step>, q: set<NodeId>, command: Command)
    returns (longer: seq<Cluster>, taken: seq<Step>, v: NodeId)
    requires IsRun(states, steps) && Quorum(states[|steps|].nodes.Keys, q)
    ensures IsRun(longer, taken) && states <= longer
    ensures var c := longer[|taken|];
      && v in q && v in c.nodes && c.nodes[v].role == Leader
      && var s := c.nodes[v];
      var n := |s.log| - 1;
      && n >= 0 && s.log[n].command == command
      && s.commitIndex == n && Answer(n, s.log[n]) in s.answers
      && forall p :: p in q ==>
           && p in c.nodes && s.log <= c.nodes[p].log && c.nodes[p].commitIndex >= n && c.nodes[p].lastApplied >= n
           && (p != v ==> c.nodes[p].currentLeader == Some(v))
  {
    var c := states[|steps|];
    RunConsistent(states, steps);
    var b, w, ps := Elects(c, q);
    v := w;
    var c' := Commits(b, v, ps, command);
    CanTrans(c, b, c');
    var more :| CanRun(c, more) && End(c, more) == c';
    longer, taken := RunGoesOn(states, steps, more);
    forall p | p in q && p != v ensures UpToDate(c', v, p) {
      assert p in Elements(ps) + {v};
    }
  }

  /**
    After any run, if answers that cover entry m of its own term have been sent to a leader by the rest of a quorum, it
    can commit the entry without anything else being sent, appended or acknowledged, however long its log has become.
   */
  lemma AnsweredCanCommit(states: seq<Cluster>, steps: seq<Step>, v: NodeId, q: set<NodeId>, m: nat)
    returns (longer: seq<Cluster>, taken: seq<Step>)
    requires InRun(states, steps, |steps|, v) && states[|steps|].nodes[v].role == Leader
    requires Quorum(states[|steps|].nodes.Keys, q) && v in q
    requires var s := states[|steps|].nodes[v];
      && m < |s.log| && s.log[m].term == s.currentTerm
      && forall p :: p in q && p != v ==> Answered(states[|steps|].net, p, s.currentTerm, m)
    ensures IsRun(longer, taken) && states <= longer
    ensures var c, c' := states[|steps|], longer[|taken|];
      && c'.net == c.net && v in c'.nodes && c'.nodes == c.nodes[v := c'.nodes[v]]
      && c'.nodes[v].log == c.nodes[v].log && c'.nodes[v].commitIndex >= m
  {
    var c := states[|steps|];
    RunConsistent(states, steps);
    var ps := Listed(q - {v});
    PeersAre(c, v);
    forall p | p in ps ensures p in q && p != v { assert p in Elements(ps); }
    var c' := CommitsAnswered(c, v, ps, m);
    var more :| CanRun(c, more) && End(c, more) == c';
    longer, taken := RunGoesOn(states, steps, more);
  }
}
