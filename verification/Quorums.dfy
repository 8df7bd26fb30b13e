module Quorums {
  ghost predicate Quorum(members: set<nat>, q: set<nat>) {
    q <= members && |q| >= |members| / 2 + 1
  }

  lemma QuorumsMeet(members: set<nat>, a: set<nat>, b: set<nat>) returns (x: nat)
    requires Quorum(members, a) && Quorum(members, b)
    ensures x in a && x in b
  {
    SubsetSize(a + b, members);
    assert |a + b| == |a| + |b| - |a * b|;
    x :| x in a * b;
  }

  lemma {:induction false} SubsetSize(a: set<nat>, b: set<nat>)
    requires a <= b
    ensures |a| <= |b|
  {
    assert b == a + (b - a);
    assert |b| == |a| + |b - a|;
  }
}
