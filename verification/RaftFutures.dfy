/** Runs that go on: what can be reached from a state, and that the invariant goes with it. */
module RaftFutures {
  import opened RaftCluster
  import opened RaftInvariant
  import opened RaftRuns

  ghost predicate CanRun(c: Cluster, steps: seq<Step>)
    decreases |steps|
  {
    steps == [] || (Enabled(c, steps[0]) && CanRun(Do(c, steps[0]), steps[1..]))
  }

  ghost function End(c: Cluster, steps: seq<Step>): Cluster
    requires CanRun(c, steps)
    decreases |steps|
  {
    if steps == [] then c else End(Do(c, steps[0]), steps[1..])
  }

  /** c' can be reached from c. */
  ghost predicate Can(c: Cluster, c': Cluster) {
    exists steps :: CanRun(c, steps) && End(c, steps) == c'
  }

  ghost predicate Consistent(c: Cluster) {
    exists h :: Inv(c, h)
  }

  lemma {:induction false} RunsOn(c: Cluster, a: seq<Step>, b: seq<Step>)
    requires CanRun(c, a) && CanRun(End(c, a), b)
    ensures CanRun(c, a + b) && End(c, a + b) == End(End(c, a), b)
    decreases |a|
  {
    if a == [] {
      assert a + b == b;
    } else {
      RunsOn(Do(c, a[0]), a[1..], b);
      assert (a + b)[1..] == a[1..] + b;
    }
  }

  lemma CanStay(c: Cluster)
    ensures Can(c, c)
  {
    assert CanRun(c, []) && End(c, []) == c;
  }

  lemma CanStep(c: Cluster, step: Step)
    requires Enabled(c, step) && Consistent(c)
    ensures Can(c, Do(c, step)) && Consistent(Do(c, step))
    ensures Do(c, step).peers == c.peers && Do(c, step).nodes.Keys == c.nodes.Keys && c.net <= Do(c, step).net
  {
    var steps := [step];
    assert steps[1..] == [] && CanRun(Do(c, step), []);
    assert CanRun(c, steps) && End(c, steps) == Do(c, step);
    var h :| Inv(c, h);
    StepKeeps(c, h, step);
  }

  lemma CanTrans(a: Cluster, b: Cluster, c: Cluster)
    requires Can(a, b) && Can(b, c)
    ensures Can(a, c)
  {
    var s :| CanRun(a, s) && End(a, s) == b;
    var t :| CanRun(b, t) && End(b, t) == c;
    RunsOn(a, s, t);
  }

  /** A run that has come to c goes on to c'. */
  lemma {:induction false} RunGoesOn(states: seq<Cluster>, steps: seq<Step>, more: seq<Step>)
    returns (longer: seq<Cluster>, taken: seq<Step>)
    requires IsRun(states, steps) && CanRun(states[|steps|], more)
    ensures IsRun(longer, taken) && states <= longer && longer[|taken|] == End(states[|steps|], more)
    decreases |more|
  {
    if more == [] {
      longer, taken := states, steps;
    } else {
      var next := Do(states[|steps|], more[0]);
      RunOneMore(states, steps, more[0], next);
      longer, taken := RunGoesOn(states + [next], steps + [more[0]], more[1..]);
    }
  }

  lemma RunConsistent(states: seq<Cluster>, steps: seq<Step>)
    requires IsRun(states, steps)
    ensures Consistent(states[|steps|])
  {
    var hs := RunHistories(states, steps);
    assert Inv(states[|steps|], hs[|steps|]);
  }
}
