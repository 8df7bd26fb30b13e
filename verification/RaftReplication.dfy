/**
  Followers keep the invariant: what the append handler does to a log, to what the node has acknowledged, and to
  its commit index, whether it accepts or refuses.
 */
module RaftReplication {
  import opened RaftSpec
  import opened RaftCluster
  import opened RaftInvariant
  import opened RaftStability
  import opened RaftSteps
  import opened RaftElection
  import opened Quorums

  // ---- The append handler's effect on a log ----

  /** The request's view of the leader's log agrees with the follower's up to where the check passed. */
  lemma GenuineAgree(h: History, a: Log, b: Log, i: int)
    requires Genuine(h, a) && Genuine(h, b) && 0 <= i < |a| && i < |b| && a[i].term == b[i].term
    ensures Agree(a, b, i + 1)
  {
    assert Agree(a, h.termLog[a[i].term], i + 1) && Agree(b, h.termLog[b[i].term], i + 1);
  }

  /** Merging a cut-out of a log: what came before it is there already, so the result has the log up to its end. */
  lemma MergeEffect(h: History, log: Log, lead: Log, at: nat, entries: Log)
    requires Genuine(h, log) && Genuine(h, lead) && CutFrom(entries, lead, at)
    requires at <= |log| && (at > 0 ==> log[at - 1].term == lead[at - 1].term)
    ensures var r := Merge(log, at, entries);
      && Agree(lead, r, at + |entries|)
      && (r == log || (|r| <= |lead| && Agree(r, lead, |r|)))
  {
    var k := Agreeing(log, at, entries);
    if at > 0 { GenuineAgree(h, log, lead, at - 1); }
    if k > 0 {
      assert log[at + k - 1].term == entries[k - 1].term;
      GenuineAgree(h, log, lead, at + k - 1);
    }
    assert Agree(log, lead, at + k);
    MergeAgrees(log, lead, at, entries, k);
  }

  lemma MergeAgrees(log: Log, lead: Log, at: nat, entries: Log, k: nat)
    requires CutFrom(entries, lead, at) && k == Agreeing(log, at, entries) && at <= |log| && Agree(log, lead, at + k)
    ensures var r := Merge(log, at, entries);
      && Agree(lead, r, at + |entries|)
      && (r == log || (|r| <= |lead| && Agree(r, lead, |r|)))
  {
    if k < |entries| {
      var r := log[..at + k] + entries[k..];
      forall j | 0 <= j < at + |entries| ensures r[j] == lead[j] {
        if j >= at + k { assert r[j] == entries[j - at]; }
      }
    }
  }

  /** Whatever the log shares with the leader's, it keeps. */
  lemma MergeKeeps(h: History, log: Log, lead: Log, at: nat, entries: Log, shared: Log, n: int)
    requires Genuine(h, log) && Genuine(h, lead) && CutFrom(entries, lead, at)
    requires at <= |log| && (at > 0 ==> log[at - 1].term == lead[at - 1].term)
    requires Agree(shared, log, n) && Agree(shared, lead, n)
    ensures Agree(shared, Merge(log, at, entries), n)
  {
    MergeEffect(h, log, lead, at, entries);
  }

  ghost predicate Follows(h: History, s: NodeState, req: AppendRequest) {
    && req.term == s.currentTerm && req.term in h.termLog
    && -1 <= req.prevLogIndex && CutFrom(req.entries, h.termLog[req.term], req.prevLogIndex + 1)
    && (0 <= req.prevLogIndex < |h.termLog[req.term]| ==> h.termLog[req.term][req.prevLogIndex].term == req.prevLogTerm)
    && Genuine(h, s.log) && Genuine(h, h.termLog[req.term])
  }

  /** Refused or not, the handler cuts nothing that the log shares with the leader's. */
  lemma AppendKeepsShared(h: History, s: NodeState, req: AppendRequest, shared: Log, n: int)
    requires Follows(h, s, req) && Agree(shared, s.log, n) && Agree(shared, h.termLog[req.term], n)
    ensures Agree(shared, AppendAtTerm(s, req).0.log, n)
  {
    var lead := h.termLog[req.term];
    var prev := req.prevLogIndex;
    if prev >= |s.log| {
    } else if prev >= 0 && s.log[prev].term != req.prevLogTerm {
      assert n <= prev;
      assert AppendAtTerm(s, req).0.log == s.log[..prev];
    } else {
      assert AppendAtTerm(s, req).0.log == Merge(s.log, prev + 1, req.entries);
      MergeKeeps(h, s.log, lead, prev + 1, req.entries, shared, n);
    }
  }

  lemma AppendOutcome(h: History, s: NodeState, req: AppendRequest)
    requires Follows(h, s, req)
    requires TermsBelow(s.log, s.currentTerm + 1) && TermsBelow(h.termLog[req.term], s.currentTerm + 1)
    ensures var (s', r) := AppendAtTerm(s, req);
      && Genuine(h, s'.log)
      && (r.success ==> Agree(h.termLog[req.term], s'.log, req.prevLogIndex + 1 + |req.entries|))
      && TermsBelow(s'.log, s.currentTerm + 1)
  {
    var lead := h.termLog[req.term];
    var prev := req.prevLogIndex;
    var s' := AppendAtTerm(s, req).0;
    if prev >= |s.log| {
    } else if prev >= 0 && s.log[prev].term != req.prevLogTerm {
      GenuinePrefix(h, s'.log, s.log);
    } else {
      MergeOutcome(h, s.log, lead, prev + 1, req.entries, s.currentTerm + 1);
      assert s'.log == Merge(s.log, prev + 1, req.entries);
    }
  }

  lemma MergeOutcome(h: History, log: Log, lead: Log, at: nat, entries: Log, bound: nat)
    requires Genuine(h, log) && Genuine(h, lead) && CutFrom(entries, lead, at)
    requires at <= |log| && (at > 0 ==> log[at - 1].term == lead[at - 1].term)
    requires TermsBelow(log, bound) && TermsBelow(lead, bound)
    ensures var r := Merge(log, at, entries);
      Genuine(h, r) && TermsBelow(r, bound) && Agree(lead, r, at + |entries|)
  {
    var r := Merge(log, at, entries);
    MergeEffect(h, log, lead, at, entries);
    if r != log { GenuinePrefix(h, r, lead); }
  }

  lemma GenuinePrefix(h: History, a: Log, b: Log)
    requires Genuine(h, b) && Agree(a, b, |a|)
    ensures Genuine(h, a)
  {
    forall i | 0 <= i < |a|
      ensures a[i].term in h.termLog && Agree(a, h.termLog[a[i].term], i + 1)
    {
      assert Agree(b, h.termLog[b[i].term], i + 1);
    }
  }

  // ---- A follower's step ----

  /** What the append handler does to a node, whether it accepts or refuses. */
  ghost predicate Absorbs(c: Cluster, h: History, v: NodeId, c': Cluster, h': History, sent: set<Message>) {
    && v in c.nodes && Moves(c, c', v, sent)
    && var s := c.nodes[v];
    var s' := c'.nodes[v];
    var t := s.currentTerm;
    var k := At(t, v);
    && t in h.termLog && t in h.leaderOf && h.leaderOf[t] != v
    && s'.currentTerm == t && s'.votedFor == s.votedFor && s'.role == Follower
    && s'.matchIndex == s.matchIndex && s'.nextIndex == s.nextIndex && s'.answers == s.answers
    && s.commitIndex <= s'.commitIndex
    && Genuine(h, s'.log) && TermsBelow(s'.log, t + 1)
    && (forall n {:trigger Agree(s.log, s'.log, n)} :: Agree(s.log, h.termLog[t], n) ==> Agree(s.log, s'.log, n))
    && h' == h.(ack := h'.ack) && (h'.ack == h.ack || h'.ack == h.ack[k := Acked(h', k)])
    && -1 <= Acked(h, k) <= Acked(h', k) < |h.termLog[t]|
    && (Acked(h', k) > Acked(h, k) ==> Agree(h.termLog[t], s'.log, Acked(h', k) + 1))
  }

  lemma AbsorbsShared(
    c: Cluster, h: History, v: NodeId, c': Cluster, h': History, sent: set<Message>, shared: Log, n: int)
    requires Absorbs(c, h, v, c', h', sent)
    requires Agree(shared, c.nodes[v].log, n) && Agree(shared, h.termLog[c.nodes[v].currentTerm], n)
    ensures Agree(shared, c'.nodes[v].log, n)
  {
    assert Agree(c.nodes[v].log, h.termLog[c.nodes[v].currentTerm], n);
    assert Agree(c.nodes[v].log, c'.nodes[v].log, n);
  }

  lemma AbsorbsEvolves(c: Cluster, h: History, v: NodeId, c': Cluster, h': History, sent: set<Message>)
    requires Inv(c, h) && Absorbs(c, h, v, c', h', sent)
    ensures Evolves(c, h, c', h')
  {
  }

  lemma AbsorbKeeps(c: Cluster, h: History, v: NodeId, c': Cluster, h': History, sent: set<Message>)
    requires Inv(c, h) && Absorbs(c, h, v, c', h', sent) && CommitOk(c.nodes.Keys, h', c'.nodes[v])
    requires forall m {:trigger m in sent} :: m in sent ==> MessageOk(c.nodes.Keys, h', m)
    ensures Inv(c', h') && Evolves(c, h, c', h')
  {
    AbsorbsEvolves(c, h, v, c', h', sent);
    EvolvesGrows(c, h, c', h');
    forall x ensures Holds(c', h', x) {
      if x.Sent? || (AboutNodes(x) && x.v != v) {
        RestKept(c, h, c', h', v, sent, x);
      } else if AboutNodes(x) {
        AbsorbNode(c, h, v, c', h', sent, x);
      } else if AboutCompleteness(x) {
        AbsorbComplete(c, h, v, c', h', sent, x);
      } else {
        AbsorbRecord(c, h, v, c', h', sent, x);
      }
    }
  }

  lemma AbsorbNode(c: Cluster, h: History, v: NodeId, c': Cluster, h': History, sent: set<Message>, x: Clause)
    requires Inv(c, h) && Absorbs(c, h, v, c', h', sent) && Grows(h, h') && AboutNode(x, v)
    requires CommitOk(c.nodes.Keys, h', c'.nodes[v])
    ensures Holds(c', h', x)
  {
    Know(c, h, x);
    match x
    case LogOf(_) => GenuineStable(h, h', c'.nodes[v].log);
    case ClientsOf(_) => AnswersStable(c.nodes.Keys, h, h', c.nodes[v], c'.nodes[v]);
    case _ =>
  }

  lemma AbsorbRecord(c: Cluster, h: History, v: NodeId, c': Cluster, h': History, sent: set<Message>, x: Clause)
    requires Inv(c, h) && Absorbs(c, h, v, c', h', sent) && Evolves(c, h, c', h') && Grows(h, h') && AboutRecord(x)
    ensures Holds(c', h', x)
  {
    match x
    case Configuration => Know(c, h, x); ConfigurationKept(c, h, c', h');
    case CandidacyOf(k) => Know(c, h, x); CandidacyKept(c, h, c', h', k);
    case LogOfTerm(t) => Know(c, h, x); TermLogKept(h, h', t);
    case VoteOf(k) => AbsorbVote(c, h, v, c', h', sent, k);
    case ElectionOf(t) => AbsorbElection(c, h, v, c', h', sent, t);
    case AckOf(k) => AbsorbAck(c, h, v, c', h', sent, k);
  }

  lemma AbsorbVote(c: Cluster, h: History, v: NodeId, c': Cluster, h': History, sent: set<Message>, k: At)
    requires Inv(c, h) && Absorbs(c, h, v, c', h', sent)
    ensures VoteOk(c', h', k)
  {
    Know(c, h, VoteOf(k));
  }

  lemma AbsorbElection(c: Cluster, h: History, v: NodeId, c': Cluster, h': History, sent: set<Message>, t: nat)
    requires Inv(c, h) && Absorbs(c, h, v, c', h', sent)
    ensures TermOk(c', h', t)
  {
    Know(c, h, ElectionOf(t));
  }

  lemma AbsorbAck(c: Cluster, h: History, v: NodeId, c': Cluster, h': History, sent: set<Message>, k: At)
    requires Inv(c, h) && Absorbs(c, h, v, c', h', sent)
    ensures AckOk(c', h', k)
  {
    Know(c, h, AckOf(k));
    var t := c.nodes[v].currentTerm;
    if k == At(t, v) && k in h.ack {
      AbsorbsShared(c, h, v, c', h', sent, h.termLog[t], h.ack[k] + 1);
    }
  }

  lemma AbsorbComplete(c: Cluster, h: History, v: NodeId, c': Cluster, h': History, sent: set<Message>, x: Clause)
    requires Inv(c, h) && Absorbs(c, h, v, c', h', sent) && Evolves(c, h, c', h') && AboutCompleteness(x)
    ensures Holds(c', h', x)
  {
    if x.AckerHolds? && x.v == v {
      AbsorbAcker(c, h, v, c', h', sent, x.t, x.n);
    } else {
      CompletenessKept(c, h, c', h', x);
    }
  }

  /** What the follower acknowledged in an older term is in this leader's log too, so it is not cut. */
  lemma AbsorbAcker(
    c: Cluster, h: History, v: NodeId, c': Cluster, h': History, sent: set<Message>, t: nat, n: int)
    requires Inv(c, h) && Absorbs(c, h, v, c', h', sent) && Evolves(c, h, c', h')
    ensures AckerComplete(c', h', t, n, v)
  {
    var T := c.nodes[v].currentTerm;
    if n <= Acked(h', At(t, v)) && Potential(c', h', t, n) {
      PotentialBack(c, h, c', h', t, n);
      Know(c, h, AckOf(At(t, v)));
      if n <= Acked(h, At(t, v)) {
        Know(c, h, AckerHolds(t, n, v));
        Know(c, h, LeaderHolds(t, n, T));
        AbsorbsShared(c, h, v, c', h', sent, h.termLog[t], n + 1);
      }
    }
  }

  // ---- Commitment at a follower ----

  lemma ChosenPotential(c: Cluster, h: History, t: nat, n: int)
    requires Chosen(c.nodes.Keys, h, t, n)
    ensures Potential(c, h, t, n)
  {
    var q :| Quorum(c.nodes.Keys, q) && AllAcked(h, q, t, n);
    assert MayAck(c, h, q, t, n);
  }

  /** What is committed by a term is in the log of that term's leader. */
  lemma CommittedInLead(c: Cluster, h: History, t: nat, log: Log, k: int)
    requires Inv(c, h) && CommittedBy(c.nodes.Keys, h, t, log, k) && 0 <= k <= |log| && t in h.termLog
    ensures Agree(log, h.termLog[t], k)
  {
    if k > 0 {
      var u: nat, n :| u <= t && k <= n + 1 && Chosen(c.nodes.Keys, h, u, n) && Agree(log, h.termLog[u], k);
      ChosenPotential(c, h, u, n);
      Know(c, h, LeaderHolds(u, n, t));
    }
  }

  ghost predicate Receives(
    c: Cluster, h: History, v: NodeId, req: AppendRequest, c': Cluster, h': History, sent: set<Message>) {
    && v in c.nodes && AppendAsk(v, req) in c.net && req.term == c.nodes[v].currentTerm && -1 <= req.prevLogIndex
    && var (s', r) := AppendAtTerm(c.nodes[v], req);
    && sent == {AppendAnswer(req, v, r)}
    && Moves(c, c', v, sent) && c'.nodes[v] == s'
    && h' == if r.success then RecordAck(h, v, req) else h
  }

  lemma ReceiverFollows(c: Cluster, h: History, v: NodeId, req: AppendRequest)
    requires Inv(c, h) && v in c.nodes && AppendAsk(v, req) in c.net && req.term == c.nodes[v].currentTerm
    ensures AppendOk(c.nodes.Keys, h, v, req) && Follows(h, c.nodes[v], req) && c.nodes[v].role != Leader
    ensures TermsBelow(c.nodes[v].log, req.term + 1) && TermsBelow(h.termLog[req.term], req.term + 1)
  {
    Know(c, h, Sent(AppendAsk(v, req)));
    Know(c, h, LogOf(v));
    Know(c, h, LogOfTerm(req.term));
    Know(c, h, LeadershipOf(v));
  }

  /** No committed entry is cut, and the commit index stays within what this request verified. */
  lemma ReceiverCommit(c: Cluster, h: History, v: NodeId, req: AppendRequest)
    requires Inv(c, h) && v in c.nodes && AppendAsk(v, req) in c.net && req.term == c.nodes[v].currentTerm
    requires -1 <= req.prevLogIndex
    ensures var s := c.nodes[v]; var s' := AppendAtTerm(s, req).0;
      && s.commitIndex < |s'.log| && Agree(s.log, s'.log, s.commitIndex + 1)
      && s'.commitIndex == (if AppendAtTerm(s, req).1.success
                            then Max(s.commitIndex, req.leaderCommit) else s.commitIndex)
      && CommitOk(c.nodes.Keys, h, s')
  {
    var s := c.nodes[v];
    ReceiverFollows(c, h, v, req);
    Know(c, h, CommitOf(v));
    CommittedInLead(c, h, req.term, s.log, s.commitIndex + 1);
    FollowerCommit(c.nodes.Keys, h, v, s, req);
  }

  lemma FollowerCommit(members: set<NodeId>, h: History, v: NodeId, s: NodeState, req: AppendRequest)
    requires AppendOk(members, h, v, req) && Follows(h, s, req) && CommitOk(members, h, s)
    requires Agree(s.log, h.termLog[req.term], s.commitIndex + 1)
    requires TermsBelow(s.log, s.currentTerm + 1) && TermsBelow(h.termLog[req.term], s.currentTerm + 1)
    ensures var (s', r) := AppendAtTerm(s, req);
      && s.commitIndex < |s'.log| && Agree(s.log, s'.log, s.commitIndex + 1)
      && s'.commitIndex == (if r.success then Max(s.commitIndex, req.leaderCommit) else s.commitIndex)
      && CommitOk(members, h, s')
  {
    var s' := AppendAtTerm(s, req).0;
    AppendKeepsShared(h, s, req, s.log, s.commitIndex + 1);
    AppendOutcome(h, s, req);
    CommittedStable2(members, h, req.term, s.log, s'.log, s.commitIndex + 1);
    if s'.commitIndex != s.commitIndex {
      CommittedStable2(members, h, req.term, h.termLog[req.term], s'.log, req.leaderCommit + 1);
    }
  }

  lemma CommittedStable2(members: set<NodeId>, h: History, t: nat, log: Log, log': Log, k: int)
    requires CommittedBy(members, h, t, log, k) && Agree(log, log', k)
    ensures CommittedBy(members, h, t, log', k)
  {
    assert forall t, p :: GrowsAt(h, h, t, p);
    CommittedStable(members, h, h, t, t, log, log', k);
  }

  lemma AppendFields(s: NodeState, req: AppendRequest)
    requires -1 <= req.prevLogIndex && s.role != Leader
    ensures var s' := AppendAtTerm(s, req).0;
      && s'.currentTerm == s.currentTerm && s'.votedFor == s.votedFor && s'.role == Follower
      && s'.matchIndex == s.matchIndex && s'.nextIndex == s.nextIndex && s'.answers == s.answers
  {
  }

  lemma RecordAckFields(c: Cluster, h: History, v: NodeId, req: AppendRequest)
    requires Inv(c, h) && AppendOk(c.nodes.Keys, h, v, req)
    ensures var h' := RecordAck(h, v, req); var k := At(req.term, v);
      && h' == h.(ack := h'.ack) && h'.ack == h.ack[k := Acked(h', k)]
      && Acked(h', k) == Max(Acked(h, k), req.prevLogIndex + |req.entries|)
  {
  }

  lemma ReceiveAbsorbs(
    c: Cluster, h: History, v: NodeId, req: AppendRequest, c': Cluster, h': History, sent: set<Message>)
    requires Inv(c, h) && Receives(c, h, v, req, c', h', sent)
    ensures Absorbs(c, h, v, c', h', sent)
  {
    var s := c.nodes[v];
    ReceiverFollows(c, h, v, req);
    AppendFields(s, req);
    RecordAckFields(c, h, v, req);
    assert Genuine(h, c'.nodes[v].log) && TermsBelow(c'.nodes[v].log, s.currentTerm + 1) by {
      AppendOutcome(h, s, req);
    }
    assert s.commitIndex <= c'.nodes[v].commitIndex by { ReceiverCommit(c, h, v, req); }
    AckAbsorbed(c, h, v, req, c', h', sent);
    forall n | Agree(s.log, h.termLog[req.term], n) ensures Agree(s.log, c'.nodes[v].log, n) {
      AppendKeepsShared(h, s, req, s.log, n);
    }
  }

  lemma AckAbsorbed(c: Cluster, h: History, v: NodeId, req: AppendRequest, c': Cluster, h': History, sent: set<Message>)
    requires Inv(c, h) && Receives(c, h, v, req, c', h', sent) && req.term in h.termLog
    ensures var k := At(req.term, v);
      && -1 <= Acked(h, k) <= Acked(h', k) < |h.termLog[req.term]|
      && (Acked(h', k) > Acked(h, k) ==> Agree(h.termLog[req.term], c'.nodes[v].log, Acked(h', k) + 1))
  {
    ReceiverFollows(c, h, v, req);
    AppendOutcome(h, c.nodes[v], req);
    RecordAckFields(c, h, v, req);
    Know(c, h, AckOf(At(req.term, v)));
  }

  lemma ReceiveKeeps(
    c: Cluster, h: History, v: NodeId, req: AppendRequest, c': Cluster, h': History, sent: set<Message>)
    requires Inv(c, h) && Receives(c, h, v, req, c', h', sent)
    ensures Inv(c', h') && Evolves(c, h, c', h')
  {
    ReceiveAbsorbs(c, h, v, req, c', h', sent);
    AbsorbsEvolves(c, h, v, c', h', sent);
    EvolvesGrows(c, h, c', h');
    ReceiverFollows(c, h, v, req);
    AppendStable(c.nodes.Keys, h, h', v, req);
    ReceiverCommit(c, h, v, req);
    var s' := c'.nodes[v];
    CommittedStable(c.nodes.Keys, h, h', s'.currentTerm, s'.currentTerm, s'.log, s'.log, s'.commitIndex + 1);
    AbsorbKeeps(c, h, v, c', h', sent);
  }
}
