/** What consistent hashing is for: stable routing as nodes come and go, and the same routing on every node. */
module RingSafety {
  import opened HashRings
  import opened Sequences

  // ---- Sorted lists ----

  lemma SortedTail(s: seq<nat>)
    requires Sorted(s) && s != []
    ensures Sorted(s[1..]) && forall y :: y in s[1..] ==> s[0] <= y
  {
  }

  lemma SortedCons(x: nat, s: seq<nat>)
    requires Sorted(s) && forall y :: y in s ==> x <= y
    ensures Sorted([x] + s)
  {
    var t := [x] + s;
    forall i, j | 0 <= i < j < |t| ensures t[i] <= t[j] {
      assert t[j] in s;
      if i > 0 { assert t[i] == s[i - 1] && t[j] == s[j - 1]; }
    }
  }

  lemma {:induction false} InsertCount(s: seq<nat>, x: nat, p: nat)
    ensures Count(Insert(s, x), p) == Count(s, p) + if p == x then 1 else 0
    decreases |s|
  {
    if s != [] && s[0] <= x { InsertCount(s[1..], x, p); }
  }

  lemma {:induction false} InsertSorted(s: seq<nat>, x: nat)
    requires Sorted(s)
    ensures Sorted(Insert(s, x))
    decreases |s|
  {
    if s != [] {
      SortedTail(s);
      if s[0] <= x {
        InsertSorted(s[1..], x);
        forall y | y in Insert(s[1..], x) ensures s[0] <= y { InsertCount(s[1..], x, y); }
        SortedCons(s[0], Insert(s[1..], x));
      } else {
        SortedCons(x, s);
      }
    }
  }

  lemma {:induction false} RemoveFirstCount(s: seq<nat>, x: nat, p: nat)
    requires x in s
    ensures Count(RemoveFirst(s, x), p) == Count(s, p) - if p == x then 1 else 0
    decreases |s|
  {
    if s[0] != x { RemoveFirstCount(s[1..], x, p); }
  }

  lemma {:induction false} RemoveFirstSorted(s: seq<nat>, x: nat)
    requires Sorted(s) && x in s
    ensures Sorted(RemoveFirst(s, x))
    decreases |s|
  {
    SortedTail(s);
    if s[0] != x {
      RemoveFirstSorted(s[1..], x);
      forall y | y in RemoveFirst(s[1..], x) ensures s[0] <= y { RemoveFirstCount(s[1..], x, y); }
      SortedCons(s[0], RemoveFirst(s[1..], x));
    }
  }

  /** A sorted list is determined by what it contains. */
  lemma {:induction false} SortedUnique(a: seq<nat>, b: seq<nat>)
    requires Sorted(a) && Sorted(b) && forall p :: Count(a, p) == Count(b, p)
    ensures a == b
    decreases |a|
  {
    if b == [] {
      assert forall p :: Count(b, p) == 0;
    } else {
      assert Count(a, b[0]) == Count(b, b[0]);
      assert Count(a, a[0]) == Count(b, a[0]);
      SortedTail(a);
      SortedTail(b);
      assert a[0] == b[0];
      forall p ensures Count(a[1..], p) == Count(b[1..], p) { assert Count(a, p) == Count(b, p); }
      SortedUnique(a[1..], b[1..]);
    }
  }

  lemma {:induction false} RepeatedTwice(s: seq<nat>, i: nat, j: nat)
    requires i < j < |s| && s[i] == s[j]
    ensures Count(s, s[i]) >= 2
  {
    CountSplit(s, j, s[i]);
    assert s[..j][i] == s[i] && s[j..][0] == s[i];
  }

  lemma {:induction false} TwiceRepeats(s: seq<nat>, p: nat)
    requires Count(s, p) >= 2
    ensures !Distinct(s)
    decreases |s|
  {
    if s[0] == p {
      var j :| 0 <= j < |s| - 1 && s[1..][j] == p;
      assert s[j + 1] == s[0];
    } else {
      TwiceRepeats(s[1..], p);
      var i, j :| 0 <= i < j < |s[1..]| && s[1..][i] == s[1..][j];
      assert s[i + 1] == s[j + 1];
    }
  }

  // ---- Adding and removing a node ----

  /** What every ring keeps, collisions or not. */
  ghost predicate Valid(r: Ring) {
    Sorted(r.positions) && forall p :: p in r.owner ==> p in r.positions
  }

  /** Each position listed once, and owned. */
  ghost predicate Healthy(r: Ring) {
    Sorted(r.positions) && forall p :: Count(r.positions, p) == if p in r.owner then 1 else 0
  }

  lemma HealthyValid(r: Ring)
    requires Healthy(r)
    ensures Valid(r) && Elements(r.positions) == r.owner.Keys
  {
    forall p ensures p in r.positions <==> p in r.owner { assert Count(r.positions, p) >= 0; }
  }

  lemma {:induction false} AddValid(r: Ring, ps: seq<nat>, node: string)
    requires Valid(r)
    ensures Valid(Add(r, ps, node))
    decreases |ps|
  {
    if ps != [] {
      var n := |ps| - 1;
      var b := Add(r, ps[..n], node);
      AddValid(r, ps[..n], node);
      InsertSorted(b.positions, ps[n]);
      forall p | p in Add(r, ps, node).owner ensures p in Insert(b.positions, ps[n]) {
        InsertCount(b.positions, ps[n], p);
      }
    }
  }

  lemma {:induction false} AddCount(r: Ring, ps: seq<nat>, node: string, p: nat)
    ensures Count(Add(r, ps, node).positions, p) == Count(r.positions, p) + Count(ps, p)
    decreases |ps|
  {
    if ps != [] {
      var n := |ps| - 1;
      AddCount(r, ps[..n], node, p);
      InsertCount(Add(r, ps[..n], node).positions, ps[n], p);
      CountLast(ps, p);
    }
  }

  lemma {:induction false} AddOwner(r: Ring, ps: seq<nat>, node: string, p: nat)
    ensures var a := Add(r, ps, node).owner;
      && (p in a <==> p in ps || p in r.owner)
      && (p in a ==> a[p] == if p in ps then node else r.owner[p])
    decreases |ps|
  {
    if ps != [] {
      var n := |ps| - 1;
      AddOwner(r, ps[..n], node, p);
      assert p in ps <==> p in ps[..n] || p == ps[n];
    }
  }

  lemma {:induction false} RemoveValid(r: Ring, ps: seq<nat>)
    requires Valid(r)
    ensures Valid(Remove(r, ps))
    decreases |ps|
  {
    if ps != [] {
      var n := |ps| - 1;
      var b := Remove(r, ps[..n]);
      RemoveValid(r, ps[..n]);
      if ps[n] in b.owner {
        RemoveFirstSorted(b.positions, ps[n]);
        forall p | p in b.owner && p != ps[n] ensures p in RemoveFirst(b.positions, ps[n]) {
          RemoveFirstCount(b.positions, ps[n], p);
        }
      }
    }
  }

  lemma {:induction false} RemoveCount(r: Ring, ps: seq<nat>, p: nat)
    requires Valid(r)
    ensures var d := Remove(r, ps);
      && Count(d.positions, p) == Count(r.positions, p) - (if p in ps && p in r.owner then 1 else 0)
      && (p in d.owner <==> p in r.owner && p !in ps) && (p in d.owner ==> d.owner[p] == r.owner[p])
    decreases |ps|
  {
    if ps != [] {
      var n := |ps| - 1;
      var b := Remove(r, ps[..n]);
      RemoveCount(r, ps[..n], p);
      RemoveValid(r, ps[..n]);
      assert p in ps <==> p in ps[..n] || p == ps[n];
      if ps[n] in b.owner { RemoveFirstCount(b.positions, ps[n], p); }
    }
  }

  /** Adding keeps the ring healthy exactly when the new positions are distinct and none is taken. */
  lemma AddHealthyIff(r: Ring, ps: seq<nat>, node: string)
    requires Healthy(r)
    ensures Healthy(Add(r, ps, node)) <==> Distinct(ps) && forall p :: p in ps ==> p !in r.owner
  {
    HealthyValid(r);
    AddValid(r, ps, node);
    var a := Add(r, ps, node);
    forall p ensures Count(a.positions, p) == Count(r.positions, p) + Count(ps, p) { AddCount(r, ps, node, p); }
    forall p ensures p in a.owner <==> p in ps || p in r.owner { AddOwner(r, ps, node, p); }
    if Healthy(a) {
      if !Distinct(ps) {
        var i, j :| 0 <= i < j < |ps| && ps[i] == ps[j];
        RepeatedTwice(ps, i, j);
        assert false;
      }
      forall p | p in ps ensures p !in r.owner {
        assert Count(a.positions, p) == 1 && Count(ps, p) > 0;
      }
    } else if Distinct(ps) {
      var p :| Count(a.positions, p) != if p in a.owner then 1 else 0;
      if Count(ps, p) >= 2 { TwiceRepeats(ps, p); }
      assert p in ps && p in r.owner;
    }
  }

  /**
    Removing a node right after adding it restores the ring exactly when its positions are distinct and none was
    taken.  A node listed twice, or two labels with one hash, are the ways it fails.
   */
  lemma RemoveAfterAddIff(r: Ring, ps: seq<nat>, node: string)
    requires Valid(r)
    ensures Remove(Add(r, ps, node), ps) == r <==> Distinct(ps) && forall p :: p in ps ==> p !in r.owner
  {
    if !Distinct(ps) {
      var i, j :| 0 <= i < j < |ps| && ps[i] == ps[j];
      RepeatedTwice(ps, i, j);
      AddThenRemove(r, ps, node, ps[i]);
    } else if p :| p in ps && p in r.owner {
      AddThenRemove(r, ps, node, p);
    } else {
      RemoveUndoesAdd(r, ps, node);
    }
  }

  lemma RemoveUndoesAdd(r: Ring, ps: seq<nat>, node: string)
    requires Valid(r) && Distinct(ps) && forall p :: p in ps ==> p !in r.owner
    ensures Remove(Add(r, ps, node), ps) == r
  {
    var d := Remove(Add(r, ps, node), ps);
    AddValid(r, ps, node);
    RemoveValid(Add(r, ps, node), ps);
    forall p
      ensures Count(d.positions, p) == Count(r.positions, p)
      ensures (p in d.owner <==> p in r.owner) && (p in d.owner ==> d.owner[p] == r.owner[p])
    {
      AddThenRemove(r, ps, node, p);
      if Count(ps, p) >= 2 { TwiceRepeats(ps, p); }
    }
    SortedUnique(d.positions, r.positions);
    assert d.owner == r.owner;
  }

  lemma AddThenRemove(r: Ring, ps: seq<nat>, node: string, p: nat)
    requires Valid(r)
    ensures var d := Remove(Add(r, ps, node), ps);
      && Count(d.positions, p) == Count(r.positions, p) + Count(ps, p) - (if p in ps then 1 else 0)
      && (p in d.owner <==> p in r.owner && p !in ps) && (p in d.owner ==> d.owner[p] == r.owner[p])
  {
    AddValid(r, ps, node);
    AddCount(r, ps, node, p);
    AddOwner(r, ps, node, p);
    RemoveCount(Add(r, ps, node), ps, p);
  }

  // ---- Lookup ----

  /** The declarative rule: the least position at or after h, or the least of all if there is none. */
  ghost predicate Successor(positions: set<nat>, h: nat, p: nat) {
    && p in positions
    && if p >= h then forall q :: q in positions && q >= h ==> p <= q
       else forall q :: q in positions ==> p <= q && q < h
  }

  lemma SuccessorUnique(positions: set<nat>, h: nat, p: nat, q: nat)
    requires Successor(positions, h, p) && Successor(positions, h, q)
    ensures p == q
  {
  }

  /** The binary search with wrap-around finds the clockwise successor. */
  lemma FindSuccessor(r: Ring, h: nat) returns (p: nat)
    requires Sorted(r.positions) && r.positions != []
    ensures Successor(Elements(r.positions), h, p)
    ensures Find(r, h) == if p in r.owner then OwnedBy(r.owner[p]) else KeyError(p)
  {
    var i := FirstAtLeast(r.positions, h);
    p := r.positions[if i == |r.positions| then 0 else i];
    forall q | q in Elements(r.positions)
      ensures if i == |r.positions| then p <= q && q < h else q >= h ==> p <= q
    {
      var j :| 0 <= j < |r.positions| && r.positions[j] == q;
    }
  }

  /** Adding a node moves keys only to that node. */
  lemma AddMovesOnlyToNew(r: Ring, ps: seq<nat>, node: string, h: nat)
    requires Valid(r)
    ensures Find(Add(r, ps, node), h) in {Find(r, h), OwnedBy(node)}
  {
    var a := Add(r, ps, node);
    AddValid(r, ps, node);
    forall p ensures p in a.positions <==> p in r.positions || p in ps { AddCount(r, ps, node, p); }
    if a.positions == [] {
      assert forall p :: p !in a.positions;
    } else {
      var p' := FindSuccessor(a, h);
      AddOwner(r, ps, node, p');
      if p' !in ps {
        var p := FindSuccessor(r, h);
        assert p in Elements(a.positions);
        assert Successor(Elements(r.positions), h, p');
        SuccessorUnique(Elements(r.positions), h, p, p');
      }
    }
  }

  /** Removing a node that owns its positions moves only its own keys. */
  lemma RemoveMovesOnlyOwn(r: Ring, ps: seq<nat>, node: string, h: nat)
    requires Healthy(r) && forall p :: p in ps && p in r.owner ==> r.owner[p] == node
    ensures Find(r, h) != OwnedBy(node) ==> Find(Remove(r, ps), h) == Find(r, h)
    ensures Healthy(Remove(r, ps))
  {
    RemoveHealthy(r, ps);
    if Find(r, h) != OwnedBy(node) {
      RemoveKeepsRoute(r, ps, node, h);
    }
  }

  lemma RemoveHealthy(r: Ring, ps: seq<nat>)
    requires Healthy(r)
    ensures Healthy(Remove(r, ps))
  {
    HealthyValid(r);
    var d := Remove(r, ps);
    RemoveValid(r, ps);
    forall p ensures Count(d.positions, p) == if p in d.owner then 1 else 0 { RemoveCount(r, ps, p); }
  }

  lemma RemoveKeepsRoute(r: Ring, ps: seq<nat>, node: string, h: nat)
    requires Healthy(r) && (forall p :: p in ps && p in r.owner ==> r.owner[p] == node) && Find(r, h) != OwnedBy(node)
    ensures Find(Remove(r, ps), h) == Find(r, h)
  {
    HealthyValid(r);
    RemoveValid(r, ps);
    var d := Remove(r, ps);
    forall q | q in d.positions ensures q in r.positions { RemoveCount(r, ps, q); }
    if r.positions == [] {
      assert forall q :: q !in d.positions;
    } else {
      var p := FindSuccessor(r, h);
      RemoveCount(r, ps, p);
      StillSuccessor(r, d, h, p);
    }
  }

  lemma StillSuccessor(r: Ring, d: Ring, h: nat, p: nat)
    requires Sorted(d.positions) && (forall q :: q in d.positions ==> q in r.positions)
    requires Successor(Elements(r.positions), h, p) && p in d.positions && p in d.owner
    ensures Find(d, h) == OwnedBy(d.owner[p])
  {
    var p' := FindSuccessor(d, h);
    assert Elements(d.positions) <= Elements(r.positions) && p in Elements(d.positions);
    SuccessorOfSubset(Elements(r.positions), Elements(d.positions), h, p);
    SuccessorUnique(Elements(d.positions), h, p, p');
  }

  lemma SuccessorOfSubset(all: set<nat>, some: set<nat>, h: nat, p: nat)
    requires Successor(all, h, p) && some <= all && p in some
    ensures Successor(some, h, p)
  {
  }

  // ---- The labels of a node's virtual nodes ----

  predicate IsDigit(c: char) {
    c in "0123456789"
  }

  function DigitValue(c: char): nat
    requires IsDigit(c)
  {
    c as nat - '0' as nat
  }

  ghost predicate Digits(s: string) {
    forall i :: 0 <= i < |s| ==> IsDigit(s[i])
  }

  /** A numeral read in base ten. */
  function Value(s: string): nat
    requires Digits(s)
    decreases |s|
  {
    if s == "" then 0 else 10 * Value(s[..|s| - 1]) + DigitValue(s[|s| - 1])
  }

  lemma DigitAt(d: nat)
    requires d < 10
    ensures IsDigit("0123456789"[d]) && DigitValue("0123456789"[d]) == d
    ensures "0123456789"[d] == '0' <==> d == 0
  {
  }

  /** The numeral of an index reads back as that index, is all digits, and has no leading zero. */
  lemma {:induction false} DecimalReadsBack(i: nat)
    ensures Decimal(i) != "" && Digits(Decimal(i)) && Value(Decimal(i)) == i
    ensures Decimal(i)[0] == '0' ==> i == 0 && Decimal(i) == "0"
    decreases i
  {
    DigitAt(i % 10);
    var s := Decimal(i);
    if i < 10 {
      assert s == ["0123456789"[i]] && s[..0] == "";
    } else {
      DecimalReadsBack(i / 10);
      assert s[..|s| - 1] == Decimal(i / 10) && s[0] == Decimal(i / 10)[0];
    }
  }

  /** A label is the node's name, a hash sign and a numeral that reads back as the index. */
  lemma LabelReadsBack(node: string, i: nat)
    ensures var text := Label(node, i);
      var n := |node| + 1;
      |text| > n && text[..n] == node + "#" && Digits(text[n..]) && Value(text[n..]) == i
  {
    DecimalReadsBack(i);
    assert Label(node, i)[..|node| + 1] == node + "#";
    assert Label(node, i)[|node| + 1..] == Decimal(i);
  }

  /** No two virtual nodes share a label, whatever the nodes are called. */
  lemma LabelsDiffer(a: string, i: nat, b: string, j: nat)
    requires Label(a, i) == Label(b, j)
    ensures a == b && i == j
  {
    LabelReadsBack(a, i);
    LabelReadsBack(b, j);
    LabelNotShorter(a, i, b, j);
    LabelNotShorter(b, j, a, i);
    assert a == Label(a, i)[..|a| + 1][..|a|] && b == Label(b, j)[..|b| + 1][..|b|];
  }

  lemma LabelNotShorter(a: string, i: nat, b: string, j: nat)
    requires Label(a, i) == Label(b, j)
    ensures |a| <= |b|
  {
    LabelReadsBack(a, i);
    LabelReadsBack(b, j);
    var text := Label(a, i);
    assert text[|a|] == text[..|a| + 1][|a|] == '#';
    forall k | |b| < k < |text| ensures IsDigit(text[k]) {
      assert text[k] == text[|b| + 1..][k - |b| - 1];
    }
  }

  ghost predicate Injective(hash: string -> nat) {
    forall x, y :: hash(x) == hash(y) ==> x == y
  }

  /** So a hash without collisions gives every virtual node a position of its own, however many there are. */
  lemma InjectiveNoCollisions(hash: string -> nat, virtualNodes: nat, nodes: set<string>)
    requires Injective(hash)
    ensures NoCollisions(hash, virtualNodes, nodes)
  {
    forall a, i: nat, b, j: nat | hash(Label(a, i)) == hash(Label(b, j)) ensures a == b && i == j {
      LabelsDiffer(a, i, b, j);
    }
  }

  // ---- The same ring on every node ----

  /** No two virtual nodes in use hash to one position. */
  ghost predicate NoCollisions(hash: string -> nat, virtualNodes: nat, nodes: set<string>) {
    forall a, i: nat, b, j: nat {:trigger hash(Label(a, i)), hash(Label(b, j))} ::
      a in nodes && b in nodes && i < virtualNodes && j < virtualNodes && hash(Label(a, i)) == hash(Label(b, j))
      ==> a == b && i == j
  }

  lemma {:induction false} PositionsAt(hash: string -> nat, node: string, n: nat)
    ensures |Positions(hash, node, n)| == n
    ensures forall i: nat {:trigger Positions(hash, node, n)[i]} :: i < n ==>
        Positions(hash, node, n)[i] == hash(Label(node, i))
    decreases n
  {
    if n > 0 { PositionsAt(hash, node, n - 1); }
  }

  /** The ring holds exactly its nodes' positions, each owned by its node. */
  ghost predicate Holds(r: Ring, hash: string -> nat, virtualNodes: nat, nodes: set<string>) {
    && Healthy(r)
    && (forall p :: p in r.owner ==> r.owner[p] in nodes && p in Positions(hash, r.owner[p], virtualNodes))
    && (forall a, p :: a in nodes && p in Positions(hash, a, virtualNodes) ==> p in r.owner && r.owner[p] == a)
  }

  lemma {:induction false} BuildHolds(hash: string -> nat, virtualNodes: nat, nodes: seq<string>)
    requires Distinct(nodes) && NoCollisions(hash, virtualNodes, Elements(nodes))
    ensures Holds(Build(hash, virtualNodes, nodes), hash, virtualNodes, Elements(nodes))
    decreases |nodes|
  {
    if nodes != [] {
      var n := |nodes| - 1;
      var b := Build(hash, virtualNodes, nodes[..n]);
      assert Elements(nodes) == Elements(nodes[..n]) + {nodes[n]};
      BuildHolds(hash, virtualNodes, nodes[..n]);
      AddHolds(b, hash, virtualNodes, Elements(nodes[..n]), nodes[n]);
    }
  }

  lemma AddHolds(r: Ring, hash: string -> nat, virtualNodes: nat, nodes: set<string>, node: string)
    requires Holds(r, hash, virtualNodes, nodes) && node !in nodes && NoCollisions(hash, virtualNodes, nodes + {node})
    ensures Holds(Add(r, Positions(hash, node, virtualNodes), node), hash, virtualNodes, nodes + {node})
  {
    var ps := Positions(hash, node, virtualNodes);
    HealthyValid(r);
    FreshPositions(hash, virtualNodes, nodes, node);
    forall p | p in ps ensures p !in r.owner {}
    AddHealthyIff(r, ps, node);
    var a := Add(r, ps, node);
    forall p | p in a.owner
      ensures a.owner[p] in nodes + {node} && p in Positions(hash, a.owner[p], virtualNodes)
    {
      AddOwner(r, ps, node, p);
    }
    forall b, p | b in nodes + {node} && p in Positions(hash, b, virtualNodes)
      ensures p in a.owner && a.owner[p] == b
    {
      AddOwner(r, ps, node, p);
    }
  }

  lemma FreshPositions(hash: string -> nat, virtualNodes: nat, nodes: set<string>, node: string)
    requires node !in nodes && NoCollisions(hash, virtualNodes, nodes + {node})
    ensures Distinct(Positions(hash, node, virtualNodes))
    ensures forall a, p :: a in nodes && p in Positions(hash, a, virtualNodes) ==>
        p !in Positions(hash, node, virtualNodes)
  {
    var ps := Positions(hash, node, virtualNodes);
    PositionsAt(hash, node, virtualNodes);
    forall i, j | 0 <= i < j < |ps| ensures ps[i] != ps[j] {
      assert ps[i] == hash(Label(node, i)) && ps[j] == hash(Label(node, j));
    }
    forall a, p | a in nodes && p in Positions(hash, a, virtualNodes) ensures p !in ps {
      PositionsAt(hash, a, virtualNodes);
      var j: nat :| j < virtualNodes && Positions(hash, a, virtualNodes)[j] == p;
      assert forall i: nat :: i < virtualNodes ==> hash(Label(node, i)) != hash(Label(a, j));
    }
  }

  lemma SameOwner(x: Ring, y: Ring, hash: string -> nat, virtualNodes: nat, nodes: set<string>, p: nat)
    requires Holds(x, hash, virtualNodes, nodes) && Holds(y, hash, virtualNodes, nodes) && p in x.owner
    ensures p in y.owner && y.owner[p] == x.owner[p]
  {
    assert x.owner[p] in nodes && p in Positions(hash, x.owner[p], virtualNodes);
  }

  /** Two rings that hold the same nodes are the same ring. */
  lemma HoldsUnique(x: Ring, y: Ring, hash: string -> nat, virtualNodes: nat, nodes: set<string>)
    requires Holds(x, hash, virtualNodes, nodes) && Holds(y, hash, virtualNodes, nodes)
    ensures x == y
  {
    forall p | p in x.owner ensures p in y.owner && y.owner[p] == x.owner[p] {
      SameOwner(x, y, hash, virtualNodes, nodes, p);
    }
    forall p | p in y.owner ensures p in x.owner {
      SameOwner(y, x, hash, virtualNodes, nodes, p);
    }
    HealthyUnique(x, y);
  }

  lemma HealthyUnique(x: Ring, y: Ring)
    requires Healthy(x) && Healthy(y)
    requires forall p :: p in x.owner ==> p in y.owner && y.owner[p] == x.owner[p]
    requires forall p :: p in y.owner ==> p in x.owner
    ensures x == y
  {
    assert x.owner == y.owner;
    SortedUnique(x.positions, y.positions);
  }

  /** Without collisions each of its nodes owns exactly as many positions of the ring as it has virtual nodes. */
  lemma OwnsItsShare(r: Ring, hash: string -> nat, virtualNodes: nat, nodes: set<string>, node: string)
    requires Holds(r, hash, virtualNodes, nodes) && NoCollisions(hash, virtualNodes, nodes) && node in nodes
    ensures |set p | p in r.positions && p in r.owner && r.owner[p] == node| == virtualNodes
  {
    var ps := Positions(hash, node, virtualNodes);
    var own := set p | p in r.positions && p in r.owner && r.owner[p] == node;
    HealthyValid(r);
    PositionsAt(hash, node, virtualNodes);
    forall i, j | 0 <= i < j < |ps| ensures ps[i] != ps[j] {
      assert ps[i] == hash(Label(node, i)) && ps[j] == hash(Label(node, j));
    }
    DistinctSize(ps);
    assert own == Elements(ps);
  }

  /** Nodes that list the same ids, each in its own order, build the same ring and route every key alike. */
  lemma RoutingAgrees(hash: string -> nat, virtualNodes: nat, mine: seq<string>, yours: seq<string>, key: string)
    requires Distinct(mine) && Distinct(yours) && Elements(mine) == Elements(yours)
    requires NoCollisions(hash, virtualNodes, Elements(mine))
    ensures var x, y := Build(hash, virtualNodes, mine), Build(hash, virtualNodes, yours);
      && x == y && Find(x, hash(key)) == Find(y, hash(key))
      && Sorted(x.positions) && Elements(x.positions) == x.owner.Keys
      && (mine != [] && virtualNodes > 0 ==> Find(x, hash(key)).OwnedBy? && Find(x, hash(key)).node in mine)
  {
    var x := Build(hash, virtualNodes, mine);
    BuildHolds(hash, virtualNodes, mine);
    BuildHolds(hash, virtualNodes, yours);
    HoldsUnique(x, Build(hash, virtualNodes, yours), hash, virtualNodes, Elements(mine));
    HealthyValid(x);
    if mine != [] && virtualNodes > 0 {
      PositionsAt(hash, mine[0], virtualNodes);
      assert Positions(hash, mine[0], virtualNodes)[0] in x.owner;
      var p := FindSuccessor(x, hash(key));
    }
  }

  /** Two nodes may arrive in either order exactly when they have no position in common. */
  lemma OrderIrrelevantIff(r: Ring, ps: seq<nat>, a: string, qs: seq<nat>, b: string)
    requires Valid(r) && a != b
    ensures Add(Add(r, ps, a), qs, b) == Add(Add(r, qs, b), ps, a) <==> forall p :: p in ps ==> p !in qs
  {
    if p :| p in ps && p in qs {
      TwoAdds(r, ps, a, qs, b, p);
      TwoAdds(r, qs, b, ps, a, p);
    } else {
      DisjointAddsCommute(r, ps, a, qs, b);
    }
  }

  lemma DisjointAddsCommute(r: Ring, ps: seq<nat>, a: string, qs: seq<nat>, b: string)
    requires Valid(r) && forall p :: p in ps ==> p !in qs
    ensures Add(Add(r, ps, a), qs, b) == Add(Add(r, qs, b), ps, a)
  {
    var x, y := Add(Add(r, ps, a), qs, b), Add(Add(r, qs, b), ps, a);
    AddValid(r, ps, a);
    AddValid(Add(r, ps, a), qs, b);
    AddValid(r, qs, b);
    AddValid(Add(r, qs, b), ps, a);
    forall p
      ensures Count(x.positions, p) == Count(y.positions, p) && (p in x.owner <==> p in y.owner)
      ensures p in x.owner ==> x.owner[p] == y.owner[p]
    {
      TwoAdds(r, ps, a, qs, b, p);
      TwoAdds(r, qs, b, ps, a, p);
    }
    SortedUnique(x.positions, y.positions);
    assert x.owner == y.owner;
  }

  lemma TwoAdds(r: Ring, ps: seq<nat>, a: string, qs: seq<nat>, b: string, p: nat)
    ensures var x := Add(Add(r, ps, a), qs, b);
      && Count(x.positions, p) == Count(r.positions, p) + Count(ps, p) + Count(qs, p)
      && (p in x.owner <==> p in qs || p in ps || p in r.owner)
      && (p in x.owner ==> x.owner[p] == if p in qs then b else if p in ps then a else r.owner[p])
  {
    AddCount(r, ps, a, p);
    AddCount(Add(r, ps, a), qs, b, p);
    AddOwner(r, ps, a, p);
    AddOwner(Add(r, ps, a), qs, b, p);
  }

  /** Any nodes at all, in any order and with any collisions, leave a ring that finds a node for every key. */
  lemma BuildServing(hash: string -> nat, virtualNodes: nat, nodes: seq<string>)
    requires virtualNodes > 0 && nodes != []
    ensures Serving(Build(hash, virtualNodes, nodes))
  {
    var n := |nodes| - 1;
    var r := Build(hash, virtualNodes, nodes);
    BuildOwned(hash, virtualNodes, nodes);
    PositionsAt(hash, nodes[n], virtualNodes);
    var p := Positions(hash, nodes[n], virtualNodes)[0];
    AddCount(Build(hash, virtualNodes, nodes[..n]), Positions(hash, nodes[n], virtualNodes), nodes[n], p);
    assert p in r.positions;
  }

  lemma {:induction false} BuildOwned(hash: string -> nat, virtualNodes: nat, nodes: seq<string>)
    ensures var r := Build(hash, virtualNodes, nodes); Valid(r) && forall p :: p in r.positions ==> p in r.owner
    decreases |nodes|
  {
    if nodes != [] {
      var n := |nodes| - 1;
      var b := Build(hash, virtualNodes, nodes[..n]);
      BuildOwned(hash, virtualNodes, nodes[..n]);
      AddOwned(b, Positions(hash, nodes[n], virtualNodes), nodes[n]);
    }
  }

  lemma BuildNext(hash: string -> nat, virtualNodes: nat, nodes: seq<string>, i: nat)
    requires i < |nodes|
    ensures Build(hash, virtualNodes, nodes[..i + 1])
         == Add(Build(hash, virtualNodes, nodes[..i]), Positions(hash, nodes[i], virtualNodes), nodes[i])
  {
    assert nodes[..i + 1][..i] == nodes[..i];
  }

  lemma AddOwned(r: Ring, ps: seq<nat>, node: string)
    requires Valid(r) && forall p :: p in r.positions ==> p in r.owner
    ensures var a := Add(r, ps, node); Valid(a) && forall p :: p in a.positions ==> p in a.owner
  {
    AddValid(r, ps, node);
    forall p | p in Add(r, ps, node).positions ensures p in Add(r, ps, node).owner {
      AddCount(r, ps, node, p);
      AddOwner(r, ps, node, p);
    }
  }
}
