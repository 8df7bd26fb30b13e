/** N nodes and a network. */
module RaftCluster {
  // A message once sent stays in `net`: a step may deliver it late, twice, out of order or never, so loss, delay,
  // duplication and reordering are all covered.

  import opened LockCommands
  import opened RaftSpec

  /** An answer carries the request it answers: HTTP pairs a response with its request. */
  datatype Message =
    | VoteAsk(vote: VoteRequest)
    | VoteAnswer(vote: VoteRequest, from: NodeId, voted: VoteResponse)
    | AppendAsk(to: NodeId, append: AppendRequest)
    | AppendAnswer(append: AppendRequest, from: NodeId, appended: AppendResponse)

  datatype Cluster = Cluster(peers: map<NodeId, seq<NodeId>>, nodes: map<NodeId, NodeState>, net: set<Message>)

  datatype Step =
    | Timeout(node: NodeId)
    | Collect(node: NodeId, ask: VoteRequest, results: map<NodeId, VoteResponse>)
    | ReceiveVote(node: NodeId, ask: VoteRequest)
    | SendAppend(node: NodeId, peer: NodeId)
    | ReceiveAppend(node: NodeId, append: AppendRequest)
    | ReceiveReply(node: NodeId, peer: NodeId, append: AppendRequest, appended: AppendResponse)
    | Commit(node: NodeId)
    | Client(node: NodeId, command: Command)
    | Abandon(node: NodeId, index: int)
    | Apply(node: NodeId)

  /** Every node lists every other node once as a peer. */
  ghost predicate WellFormed(c: Cluster) {
    c.peers.Keys == c.nodes.Keys && forall v :: KnowsPeers(c, v)
  }

  ghost predicate KnowsPeers(c: Cluster, v: NodeId) {
    v in c.peers ==>
      && |c.peers[v]| + 1 == |c.nodes.Keys|
      && (set p | p in c.peers[v]) == c.nodes.Keys - {v}
  }

  ghost predicate Init(c: Cluster) {
    && WellFormed(c)
    && c.net == {}
    && forall v :: v in c.nodes ==> c.nodes[v] == INITIAL
  }

  /**
    When a step can happen.  A reply is handled only while the node still leads the term it asked in: stepping
    down, the only way out of Leader, cancels the heartbeat task and with it every reply still awaited.
   */
  ghost predicate Enabled(c: Cluster, step: Step) {
    && step.node in c.nodes && step.node in c.peers
    && var s := c.nodes[step.node];
    match step
    case Timeout(v) => s.role != Leader
    case Collect(v, ask, results) =>
      && ask.candidate == v && VoteAsk(ask) in c.net
      && forall p :: p in results ==> VoteAnswer(ask, p, results[p]) in c.net
    case ReceiveVote(v, ask) => ask.candidate != v && VoteAsk(ask) in c.net
    case SendAppend(v, peer) => s.role == Leader && peer in c.peers[v] && 0 <= NextOf(s, peer) <= |s.log|
    case ReceiveAppend(v, append) => AppendAsk(v, append) in c.net && -1 <= append.prevLogIndex
    case ReceiveReply(v, peer, append, appended) =>
      && append.leader == v && AppendAnswer(append, peer, appended) in c.net
      && s.role == Leader && s.currentTerm == append.term
    case Commit(v) => -1 <= s.commitIndex
    case Client(v, command) => true
    case Abandon(v, index) => true
    case Apply(v) => s.commitIndex < |s.log| && -1 <= s.lastApplied
  }

  function Put(c: Cluster, v: NodeId, s: NodeState, sent: set<Message>): Cluster {
    c.(nodes := c.nodes[v := s], net := c.net + sent)
  }

  ghost function Do(c: Cluster, step: Step): Cluster
    requires Enabled(c, step)
  {
    var v := step.node;
    var s := c.nodes[v];
    match step
    case Timeout(_) => var s' := StartElection(s, v); Put(c, v, s', {VoteAsk(VoteRequestOf(s', v))})
    case Collect(_, ask, results) => Put(c, v, CollectVotes(s, v, c.peers[v], ask.term, results), {})
    case ReceiveVote(_, ask) => var (s', r) := HandleVote(s, ask); Put(c, v, s', {VoteAnswer(ask, v, r)})
    case SendAppend(_, peer) => Put(c, v, s, {AppendAsk(peer, AppendRequestOf(s, v, peer))})
    case ReceiveAppend(_, append) => var (s', r) := HandleAppend(s, append); Put(c, v, s', {AppendAnswer(append, v, r)})
    case ReceiveReply(_, peer, append, appended) => Put(c, v, HandleReply(s, peer, append, appended), {})
    case Commit(_) => Put(c, v, AdvanceCommit(s, c.peers[v]), {})
    case Client(_, command) => Put(c, v, AppendCommand(s, command).0, {})
    case Abandon(_, index) => Put(c, v, GiveUp(s, index), {})
    case Apply(_) => Put(c, v, ApplyPass(s), {})
  }

  /** Step i of a run leads from `states[i]` to `states[i + 1]`. */
  ghost predicate StepAt(states: seq<Cluster>, steps: seq<Step>, i: nat)
    requires i < |steps| < |states|
  {
    Enabled(states[i], steps[i]) && states[i + 1] == Do(states[i], steps[i])
  }

  /** A run starts in an initial state. */
  ghost predicate IsRun(states: seq<Cluster>, steps: seq<Step>) {
    && |states| == |steps| + 1
    && Init(states[0])
    && forall i: nat :: i < |steps| ==> StepAt(states, steps, i)
  }

  lemma RunOneMore(states: seq<Cluster>, steps: seq<Step>, step: Step, c: Cluster)
    requires IsRun(states, steps) && Enabled(states[|steps|], step) && c == Do(states[|steps|], step)
    ensures IsRun(states + [c], steps + [step])
  {
    var states', steps' := states + [c], steps + [step];
    forall i: nat | i < |steps'| ensures StepAt(states', steps', i) {
      if i < |steps| { assert StepAt(states, steps, i); }
    }
  }
}
