/** A run in which the apply loop as written loses a committed command: a cluster of one node is enough. */
module ApplyBatch {
  import opened Wrappers
  import opened LockCommands
  import opened LockTables
  import opened RaftSpec
  import opened RaftCluster
  import opened ReplicatedLocks

  const FIRST := LockRequest("r0", "L", "a", Exclusive)
  const SECOND := LockRequest("r1", "M", "b", Exclusive)
  const LOG := [LogEntry(1, 0, Acquire(FIRST)), LogEntry(1, 1, Acquire(SECOND))]

  const ELECTED := INITIAL.(currentTerm := 1, votedFor := Some(0), role := Leader, votesReceived := {0},
      currentLeader := Some(0))
  const WAITING := map[0 := Future(LOG[0], false), 1 := Future(LOG[1], false)]

  function Alone(s: NodeState, net: set<Message>): Cluster {
    Cluster(map[0 := []], map[0 := s], net)
  }

  const ASK := VoteRequest(1, 0, -1, 0)

  const CAMPAIGNING := StartElection(INITIAL, 0)
  const APPENDED := ELECTED.(log := LOG, pending := WAITING)
  const COMMITTED := APPENDED.(commitIndex := 1, pending := WAITING[1 := Future(LOG[1], true)],
      answers := [Answer(1, LOG[1])])
  const APPLIED := COMMITTED.(lastApplied := 1, held := Some(LOG[1]), delivered := [LOG[1]])
  const ONCE := ELECTED.(log := [LOG[0]], pending := map[0 := Future(LOG[0], false)])
  const NET := {VoteAsk(ASK)}

  lemma WinAlone()
    ensures CollectVotes(CAMPAIGNING, 0, [], 1, map[]) == ELECTED
  {
    var s := CAMPAIGNING;
    assert s.votesReceived + Granters([], map[]) == {0};
    assert s.nextIndex + Uniform([], 0) == map[] && s.matchIndex + Uniform([], -1) == map[];
  }

  lemma CommitAlone()
    ensures AdvanceCommit(APPENDED, []) == COMMITTED
  {
    assert Ackers(APPENDED, 1) == {};
    assert Quorate(APPENDED, [], 1);
  }

  lemma AppendAlone()
    ensures AppendCommand(ELECTED, Acquire(FIRST)).0 == ONCE && AppendCommand(ONCE, Acquire(SECOND)).0 == APPENDED
  {
    assert ELECTED.log + [LOG[0]] == ONCE.log;
    assert ONCE.log + [LOG[1]] == LOG;
  }

  lemma StartsAlone()
    ensures Init(Alone(INITIAL, {}))
    ensures Enabled(Alone(INITIAL, {}), Timeout(0)) && Do(Alone(INITIAL, {}), Timeout(0)) == Alone(CAMPAIGNING, NET)
  {
    var c := Alone(INITIAL, {});
    forall v ensures KnowsPeers(c, v) {}
    assert Do(c, Timeout(0)).net == NET;
    assert Do(c, Timeout(0)).nodes == map[0 := CAMPAIGNING];
  }

  lemma StepAlone(s: NodeState, s': NodeState)
    ensures Put(Alone(s, NET), 0, s', {}) == Alone(s', NET)
  {
    assert NET + {} == NET;
    assert map[0 := s][0 := s'] == map[0 := s'];
  }

  ghost predicate Leads(c: Cluster, step: Step, c': Cluster) {
    Enabled(c, step) && c' == Do(c, step)
  }

  lemma LeadsAlone()
    ensures Leads(Alone(CAMPAIGNING, NET), Collect(0, ASK, map[]), Alone(ELECTED, NET))
    ensures Leads(Alone(ELECTED, NET), Client(0, Acquire(FIRST)), Alone(ONCE, NET))
    ensures Leads(Alone(ONCE, NET), Client(0, Acquire(SECOND)), Alone(APPENDED, NET))
  {
    WinAlone();
    AppendAlone();
    StepAlone(CAMPAIGNING, ELECTED);
    StepAlone(ELECTED, ONCE);
    StepAlone(ONCE, APPENDED);
  }

  lemma CommitsAlone()
    ensures Leads(Alone(APPENDED, NET), Commit(0), Alone(COMMITTED, NET))
    ensures Leads(Alone(COMMITTED, NET), Apply(0), Alone(APPLIED, NET))
  {
    CommitAlone();
    StepAlone(APPENDED, COMMITTED);
    assert COMMITTED.delivered + [LOG[1]] == APPLIED.delivered;
    StepAlone(COMMITTED, APPLIED);
  }

  function States(): seq<Cluster> {
    [Alone(INITIAL, {}), Alone(CAMPAIGNING, NET), Alone(ELECTED, NET), Alone(ONCE, NET), Alone(APPENDED, NET),
     Alone(COMMITTED, NET), Alone(APPLIED, NET)]
  }

  function Steps(): seq<Step> {
    [Timeout(0), Collect(0, ASK, map[]), Client(0, Acquire(FIRST)), Client(0, Acquire(SECOND)), Commit(0), Apply(0)]
  }

  lemma SixSteps(states: seq<Cluster>, steps: seq<Step>)
    requires |states| == 7 && |steps| == 6 && Init(states[0])
    requires Leads(states[0], steps[0], states[1]) && Leads(states[1], steps[1], states[2])
    requires Leads(states[2], steps[2], states[3]) && Leads(states[3], steps[3], states[4])
    requires Leads(states[4], steps[4], states[5]) && Leads(states[5], steps[5], states[6])
    ensures IsRun(states, steps)
  {
    forall i: nat | i < 6 ensures StepAt(states, steps, i) {
      assert i == 0 || i == 1 || i == 2 || i == 3 || i == 4 || i == 5;
    }
  }

  lemma RunsAlone()
    ensures IsRun(States(), Steps())
  {
    StartsAlone();
    LeadsAlone();
    CommitsAlone();
    SixSteps(States(), Steps());
  }

  /** Two entries commit at once; the pass hands over only the second, and the first command never takes effect. */
  lemma BatchedApplyLosesEntry()
    ensures IsRun(States(), Steps())
    ensures Handed(States(), Steps(), 6, 0) == LOG && States()[6].nodes[0].delivered == [LOG[1]]
    ensures TableAt(States(), Steps(), 6, 0).LockAt("L").exclusiveHolder == Some("a")
    ensures TableOf(States()[6].nodes[0].delivered).LockAt("L") == UNLOCKED
  {
    RunsAlone();
    TwoCommands();
    HandedIsPrefix(States(), Steps(), 6, 0);
    TableOfHanded(States(), Steps(), 6, 0);
  }

  /** The commit that reached both entries answered only the call for the second; the first still waits. */
  lemma BatchedCommitAnswersOne()
    ensures IsRun(States(), Steps())
    ensures var s := States()[5].nodes[0];
      s.commitIndex == 1 && s.answers == [Answer(1, LOG[1])] && 0 in s.pending && !s.pending[0].done
  {
    RunsAlone();
  }

  lemma TwoCommands()
    ensures TableOf(LOG).LockAt("L").exclusiveHolder == Some("a")
    ensures TableOf([LOG[1]]).LockAt("L") == UNLOCKED && LOG[..2] == LOG
  {
    var both, one := CommandsOf(LOG), CommandsOf([LOG[1]]);
    var t1 := ApplyCommand(EMPTY_TABLE, both[0]);
    assert both[1..] == [both[1]] && both[1..][1..] == [] && one[1..] == [];
    assert Replay(t1, both[1..]) == ApplyCommand(t1, both[1]);
    assert Replay(EMPTY_TABLE, one) == ApplyCommand(EMPTY_TABLE, one[0]);
  }
}
