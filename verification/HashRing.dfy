/** The consistent-hash ring as a value: a sorted list of positions and the owner of each. */
module HashRings {
  /** `lookup` outcomes; `KeyError` is a listed position that has no owner. */
  datatype Lookup = NoNodes | OwnedBy(node: string) | KeyError(position: nat)

  datatype Ring = Ring(positions: seq<nat>, owner: map<nat, string>)

  const EMPTY_RING := Ring([], map[])

  ghost predicate Sorted(s: seq<nat>) {
    forall i, j :: 0 <= i < j < |s| ==> s[i] <= s[j]
  }

  /** Sorted insertion behind equal positions. */
  function Insert(s: seq<nat>, x: nat): seq<nat> {
    if s == [] then [x]
    else if s[0] <= x then [s[0]] + Insert(s[1..], x)
    else [x] + s
  }

  function RemoveFirst(s: seq<nat>, x: nat): seq<nat> {
    if s == [] then []
    else if s[0] == x then s[1..]
    else [s[0]] + RemoveFirst(s[1..], x)
  }

  /** A node claims its positions one by one. */
  function Add(r: Ring, ps: seq<nat>, node: string): Ring
    decreases |ps|
  {
    if ps == [] then r
    else
      var n := |ps| - 1;
      var before := Add(r, ps[..n], node);
      Ring(Insert(before.positions, ps[n]), before.owner[ps[n] := node])
  }

  /** Each position that still has an owner is dropped, whoever that owner is. */
  function Remove(r: Ring, ps: seq<nat>): Ring
    decreases |ps|
  {
    if ps == [] then r
    else
      var n := |ps| - 1;
      var before := Remove(r, ps[..n]);
      if ps[n] in before.owner then Ring(RemoveFirst(before.positions, ps[n]), before.owner - {ps[n]}) else before
  }

  /** The index of the first position at or after h, or the length. */
  function FirstAtLeast(s: seq<nat>, h: nat): (i: nat)
    ensures i <= |s| && (i < |s| ==> s[i] >= h) && forall j :: 0 <= j < i ==> s[j] < h
  {
    if s == [] || s[0] >= h then 0 else 1 + FirstAtLeast(s[1..], h)
  }

  /** Clockwise from h, with wrap-around. */
  function Find(r: Ring, h: nat): Lookup {
    if r.positions == [] then NoNodes
    else
      var i := FirstAtLeast(r.positions, h);
      var p := r.positions[if i == |r.positions| then 0 else i];
      if p in r.owner then OwnedBy(r.owner[p]) else KeyError(p)
  }

  /** Lookups find a node: there is a position, and every listed position has an owner. */
  ghost predicate Serving(r: Ring) {
    Sorted(r.positions) && r.positions != [] && forall p :: p in r.positions ==> p in r.owner
  }

  // ---- The labels of a node's virtual nodes ----

  function Decimal(i: nat): string {
    if i < 10 then ["0123456789"[i]] else Decimal(i / 10) + ["0123456789"[i % 10]]
  }

  function Label(node: string, i: nat): string {
    node + "#" + Decimal(i)
  }

  function Positions(hash: string -> nat, node: string, virtualNodes: nat): seq<nat> {
    if virtualNodes == 0 then [] else Positions(hash, node, virtualNodes - 1) + [hash(Label(node, virtualNodes - 1))]
  }

  /** The ring after adding nodes in the given order. */
  function Build(hash: string -> nat, virtualNodes: nat, nodes: seq<string>): Ring
    decreases |nodes|
  {
    if nodes == [] then EMPTY_RING
    else
      var n := |nodes| - 1;
      Add(Build(hash, virtualNodes, nodes[..n]), Positions(hash, nodes[n], virtualNodes), nodes[n])
  }
}
