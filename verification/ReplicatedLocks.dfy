/** The lock table on top of Raft: every replica replays the committed log. */
module ReplicatedLocks {
  import opened Wrappers
  import opened LockCommands
  import opened LockTables
  import opened RaftSpec
  import opened RaftCluster
  import opened RaftSafety

  function CommandsOf(entries: seq<LogEntry>): seq<Command> {
    seq(|entries|, i requires 0 <= i < |entries| => entries[i].command)
  }

  function TableOf(entries: seq<LogEntry>): LockTable {
    Replay(EMPTY_TABLE, CommandsOf(entries))
  }

  /** The part of the present log that `last_applied` counts. */
  function AppliedPrefix(s: NodeState): seq<LogEntry>
    requires -1 <= s.lastApplied < |s.log|
  {
    s.log[..s.lastApplied + 1]
  }

  // ---- The intended apply loop: every pass hands over all it moves past ----

  /** Everything node a has handed to its callback in the first n steps, taken from its log as it was at each pass. */
  ghost function Handed(states: seq<Cluster>, steps: seq<Step>, n: nat, a: NodeId): seq<LogEntry>
    requires IsRun(states, steps) && n < |states| && a in states[0].nodes
  {
    if n == 0 then []
    else
      var before := Handed(states, steps, n - 1, a);
      StaysMember(states, steps, n - 1, a);
      IndicesInRange(states, steps, n - 1, a, a);
      if steps[n - 1] == Apply(a) then before + NewlyApplied(states[n - 1].nodes[a]) else before
  }

  /** The lock table node a keeps meanwhile: the callback applies each entry as it comes. */
  ghost function TableAt(states: seq<Cluster>, steps: seq<Step>, n: nat, a: NodeId): LockTable
    requires IsRun(states, steps) && n < |states| && a in states[0].nodes
  {
    if n == 0 then EMPTY_TABLE
    else
      var before := TableAt(states, steps, n - 1, a);
      StaysMember(states, steps, n - 1, a);
      IndicesInRange(states, steps, n - 1, a, a);
      if steps[n - 1] == Apply(a) then Replay(before, CommandsOf(NewlyApplied(states[n - 1].nodes[a]))) else before
  }

  lemma {:induction false} StaysMember(states: seq<Cluster>, steps: seq<Step>, n: nat, a: NodeId)
    requires IsRun(states, steps) && n < |states| && a in states[0].nodes
    ensures a in states[n].nodes
    decreases n
  {
    if n > 0 {
      StaysMember(states, steps, n - 1, a);
      assert StepAt(states, steps, n - 1);
    }
  }

  /** The applied entries are committed, so no step changes them. */
  lemma AppliedStays(states: seq<Cluster>, steps: seq<Step>, n: nat, a: NodeId)
    requires InRun(states, steps, n, a) && n < |steps|
    ensures a in states[n + 1].nodes
    ensures var s, s' := states[n].nodes[a], states[n + 1].nodes[a];
      && -1 <= s.lastApplied <= s.commitIndex < |s.log| && s.commitIndex < |s'.log|
      && s.log[..s.commitIndex + 1] == s'.log[..s.commitIndex + 1]
  {
    assert StepAt(states, steps, n);
    IndicesInRange(states, steps, n, a, a);
    CommittedNeverCut(states, steps, n, n + 1, a);
  }

  lemma OnlyApplyDelivers(c: Cluster, step: Step, a: NodeId)
    requires Enabled(c, step) && a in c.nodes && step != Apply(a)
    ensures a in Do(c, step).nodes
    ensures var s, s' := c.nodes[a], Do(c, step).nodes[a];
      s'.delivered == s.delivered && s'.held == s.held && s'.lastApplied == s.lastApplied
  {
  }

  /** Each pass lengthens the applied prefix by what it hands over; every other step leaves it as it is. */
  lemma StepPrefix(states: seq<Cluster>, steps: seq<Step>, n: nat, a: NodeId)
    requires InRun(states, steps, n, a) && n < |steps|
    ensures a in states[n + 1].nodes
    ensures var s, s' := states[n].nodes[a], states[n + 1].nodes[a];
      && -1 <= s.lastApplied <= s.commitIndex < |s.log| && -1 <= s'.lastApplied < |s'.log|
      && AppliedPrefix(s') == AppliedPrefix(s) + if steps[n] == Apply(a) then NewlyApplied(s) else []
  {
    AppliedStays(states, steps, n, a);
    assert StepAt(states, steps, n);
    var s, s' := states[n].nodes[a], states[n + 1].nodes[a];
    if steps[n] == Apply(a) {
      assert s' == ApplyPass(s);
      assert AppliedPrefix(s) + NewlyApplied(s) == s.log[..s.commitIndex + 1];
    } else {
      OnlyApplyDelivers(states[n], steps[n], a);
      PrefixOfEqual(s.log, s'.log, s.lastApplied + 1, s.commitIndex + 1);
    }
  }

  /** Entries handed over long ago are still in the log where they were: the whole is the prefix applied so far. */
  lemma {:induction false} HandedIsPrefix(states: seq<Cluster>, steps: seq<Step>, n: nat, a: NodeId)
    requires InRun(states, steps, n, a) && a in states[0].nodes
    ensures -1 <= states[n].nodes[a].lastApplied < |states[n].nodes[a].log|
    ensures Handed(states, steps, n, a) == AppliedPrefix(states[n].nodes[a])
    decreases n
  {
    if n == 0 {
      assert states[0].nodes[a] == INITIAL;
    } else {
      StaysMember(states, steps, n - 1, a);
      HandedIsPrefix(states, steps, n - 1, a);
      StepPrefix(states, steps, n - 1, a);
    }
  }

  lemma PrefixOfEqual(a: Log, b: Log, m: nat, n: nat)
    requires m <= n <= |a| && n <= |b| && a[..n] == b[..n]
    ensures a[..m] == b[..m]
  {
    assert a[..m] == a[..n][..m] && b[..m] == b[..n][..m];
  }

  lemma {:induction false} ReplayAppend(t: LockTable, a: seq<Command>, b: seq<Command>)
    ensures Replay(t, a + b) == Replay(Replay(t, a), b)
    decreases |a|
  {
    if a == [] {
      assert a + b == b;
    } else {
      ReplayAppend(ApplyCommand(t, a[0]), a[1..], b);
      assert (a + b)[1..] == a[1..] + b;
    }
  }

  lemma {:induction false} TableOfHanded(states: seq<Cluster>, steps: seq<Step>, n: nat, a: NodeId)
    requires IsRun(states, steps) && n < |states| && a in states[0].nodes
    ensures TableAt(states, steps, n, a) == TableOf(Handed(states, steps, n, a))
    decreases n
  {
    if n == 0 {
      assert CommandsOf([]) == [];
    } else {
      TableOfHanded(states, steps, n - 1, a);
      StaysMember(states, steps, n - 1, a);
      IndicesInRange(states, steps, n - 1, a, a);
      if steps[n - 1] == Apply(a) {
        var before, more := Handed(states, steps, n - 1, a), NewlyApplied(states[n - 1].nodes[a]);
        assert CommandsOf(before + more) == CommandsOf(before) + CommandsOf(more);
        ReplayAppend(EMPTY_TABLE, CommandsOf(before), CommandsOf(more));
      }
    }
  }

  /** Of what two replicas have been handed, whenever one looks at either, one is the beginning of the other. */
  lemma HandedComparable(states: seq<Cluster>, steps: seq<Step>, i: nat, j: nat, a: NodeId, b: NodeId)
    requires InRun(states, steps, i, a) && InRun(states, steps, j, b) && {a, b} <= states[0].nodes.Keys
    requires states[i].nodes[a].lastApplied <= states[j].nodes[b].lastApplied
    ensures Handed(states, steps, i, a) <= Handed(states, steps, j, b)
  {
    var s, r := states[i].nodes[a], states[j].nodes[b];
    HandedIsPrefix(states, steps, i, a);
    HandedIsPrefix(states, steps, j, b);
    IndicesInRange(states, steps, i, a, a);
    IndicesInRange(states, steps, j, b, b);
    if s.lastApplied >= 0 {
      StateMachineSafety(states, steps, i, j, a, b, s.lastApplied);
      PrefixOfLonger(s.log, s.lastApplied + 1, r.log, r.lastApplied + 1);
    }
  }

  lemma PrefixOfLonger(a: Log, m: nat, b: Log, n: nat)
    requires m <= |a| && m <= n <= |b| && a[..m] == b[..m]
    ensures a[..m] <= b[..n]
  {
    assert b[..n][..m] == b[..m];
  }

  /** Replicas that have applied equally far have been handed the same entries and keep the same lock table. */
  lemma ReplicasAgree(states: seq<Cluster>, steps: seq<Step>, i: nat, j: nat, a: NodeId, b: NodeId)
    requires InRun(states, steps, i, a) && InRun(states, steps, j, b) && {a, b} <= states[0].nodes.Keys
    requires states[i].nodes[a].lastApplied == states[j].nodes[b].lastApplied
    ensures Handed(states, steps, i, a) == Handed(states, steps, j, b)
    ensures TableAt(states, steps, i, a) == TableAt(states, steps, j, b)
  {
    HandedComparable(states, steps, i, j, a, b);
    HandedComparable(states, steps, j, i, b, a);
    TableOfHanded(states, steps, i, a);
    TableOfHanded(states, steps, j, b);
  }

  // ---- The apply loop as written: one callback a pass ----

  /** The pass finds exactly one new entry, or nothing was ever committed. */
  predicate FindsOne(s: NodeState) {
    s.commitIndex == s.lastApplied + 1 || (s.commitIndex == s.lastApplied && s.held == None)
  }

  ghost predicate EveryPassFindsOne(states: seq<Cluster>, steps: seq<Step>, n: nat, a: NodeId)
    requires IsRun(states, steps) && n < |states|
  {
    forall k :: 0 <= k < n && steps[k] == Apply(a) && a in states[k].nodes ==> FindsOne(states[k].nodes[a])
  }

  /** What a node has delivered, at point n of a run. */
  ghost predicate Delivery(s: NodeState, clean: bool) {
    && -1 <= s.lastApplied < |s.log|
    && (s.held == if s.lastApplied < 0 then None else Some(s.log[s.lastApplied]))
    && (clean ==> s.delivered == AppliedPrefix(s))
    && (!clean ==> exists d :: 0 <= d < |s.delivered| && s.delivered[d].index != d)
  }

  lemma {:induction false} RunDelivery(states: seq<Cluster>, steps: seq<Step>, n: nat, a: NodeId)
    requires InRun(states, steps, n, a) && a in states[0].nodes
    ensures Delivery(states[n].nodes[a], EveryPassFindsOne(states, steps, n, a))
    decreases n
  {
    if n == 0 {
      assert states[0].nodes[a] == INITIAL;
    } else {
      StaysMember(states, steps, n - 1, a);
      RunDelivery(states, steps, n - 1, a);
      LastPass(states, steps, n - 1, a);
      StepDelivery(states, steps, n - 1, a, EveryPassFindsOne(states, steps, n - 1, a));
    }
  }

  lemma StepDelivery(states: seq<Cluster>, steps: seq<Step>, n: nat, a: NodeId, clean: bool)
    requires InRun(states, steps, n, a) && n < |steps| && Delivery(states[n].nodes[a], clean)
    ensures a in states[n + 1].nodes
    ensures Delivery(states[n + 1].nodes[a], clean && (steps[n] == Apply(a) ==> FindsOne(states[n].nodes[a])))
  {
    AppliedStays(states, steps, n, a);
    if steps[n] == Apply(a) {
      PassDelivery(states, steps, n, a, clean);
    } else {
      assert StepAt(states, steps, n);
      OnlyApplyDelivers(states[n], steps[n], a);
      KeepDelivery(states[n].nodes[a], states[n + 1].nodes[a], clean);
    }
  }

  lemma LastPass(states: seq<Cluster>, steps: seq<Step>, n: nat, a: NodeId)
    requires IsRun(states, steps) && n < |steps| && a in states[n].nodes
    ensures EveryPassFindsOne(states, steps, n + 1, a)
       <==> EveryPassFindsOne(states, steps, n, a) && (steps[n] == Apply(a) ==> FindsOne(states[n].nodes[a]))
  {
  }

  lemma KeepDelivery(s: NodeState, s': NodeState, clean: bool)
    requires Delivery(s, clean) && s'.delivered == s.delivered && s'.held == s.held && s'.lastApplied == s.lastApplied
    requires s.lastApplied <= s.commitIndex < |s.log| && s.commitIndex < |s'.log|
    requires s.log[..s.commitIndex + 1] == s'.log[..s.commitIndex + 1]
    ensures Delivery(s', clean)
  {
    var k := s.commitIndex + 1;
    forall j | 0 <= j < k ensures s.log[j] == s'.log[j] {
      assert s.log[..k][j] == s'.log[..k][j];
    }
    assert s.log[..s.lastApplied + 1] == s'.log[..s.lastApplied + 1];
  }

  lemma PassDelivery(states: seq<Cluster>, steps: seq<Step>, n: nat, a: NodeId, clean: bool)
    requires InRun(states, steps, n, a) && n < |steps| && steps[n] == Apply(a)
    requires Delivery(states[n].nodes[a], clean)
    ensures a in states[n + 1].nodes
    ensures Delivery(states[n + 1].nodes[a], clean && FindsOne(states[n].nodes[a]))
  {
    assert StepAt(states, steps, n);
    var s, s' := states[n].nodes[a], states[n + 1].nodes[a];
    assert s' == ApplyPass(s);
    IndicesInRange(states, steps, n, a, a);
    if s.commitIndex >= 0 {
      LogMatching(states, steps, n, n, a, a, s.commitIndex);
    }
    if s.lastApplied >= 0 {
      LogMatching(states, steps, n, n, a, a, s.lastApplied);
    }
    if clean && !FindsOne(s) {
      assert s'.delivered[|s.delivered|].index != |s.delivered|;
    } else if !clean {
      var d :| 0 <= d < |s.delivered| && s.delivered[d].index != d;
      assert s'.delivered[d].index != d;
    }
  }

  /**
    The loop as written delivers what the intended loop hands over if and only if every pass of the run found exactly
    one new entry.
   */
  lemma DeliversPrefixIff(states: seq<Cluster>, steps: seq<Step>, n: nat, a: NodeId)
    requires InRun(states, steps, n, a) && a in states[0].nodes
    ensures states[n].nodes[a].delivered == Handed(states, steps, n, a) <==> EveryPassFindsOne(states, steps, n, a)
  {
    var s := states[n].nodes[a];
    HandedIsPrefix(states, steps, n, a);
    RunDelivery(states, steps, n, a);
    if s.delivered == AppliedPrefix(s) {
      forall d | 0 <= d < |s.delivered|
        ensures s.delivered[d].index == d
      {
        LogMatching(states, steps, n, n, a, a, d);
      }
    }
  }

  /** So replicas whose passes each found one entry do agree as written. */
  lemma ReplicasAgreeAsWritten(states: seq<Cluster>, steps: seq<Step>, i: nat, j: nat, a: NodeId, b: NodeId)
    requires InRun(states, steps, i, a) && InRun(states, steps, j, b) && {a, b} <= states[0].nodes.Keys
    requires states[i].nodes[a].lastApplied == states[j].nodes[b].lastApplied
    requires EveryPassFindsOne(states, steps, i, a) && EveryPassFindsOne(states, steps, j, b)
    ensures TableOf(states[i].nodes[a].delivered) == TableOf(states[j].nodes[b].delivered)
  {
    DeliversPrefixIff(states, steps, i, a);
    DeliversPrefixIff(states, steps, j, b);
    ReplicasAgree(states, steps, i, j, a, b);
  }
}
