/** The ring with its mutable list and dictionary. */
module ConsistentHashes {
  import opened HashRings

  lemma {:induction false} InsertAt(s: seq<nat>, x: nat, k: nat)
    requires k <= |s| && (forall i :: 0 <= i < k ==> s[i] <= x) && (forall i :: k <= i < |s| ==> s[i] > x)
    ensures Insert(s, x) == s[..k] + [x] + s[k..]
    decreases |s|
  {
    if s != [] {
      if k > 0 {
        InsertAt(s[1..], x, k - 1);
        assert s[..k] == [s[0]] + s[1..][..k - 1];
        assert s[k..] == s[1..][k - 1..];
      } else {
        assert s[..0] == [] && s[0..] == s;
      }
    }
  }

  /** Where the sorted list passes from at most x to above x. */
  method BisectRight(s: seq<nat>, x: nat) returns (lo: nat)
    requires Sorted(s)
    ensures lo <= |s| && (forall i :: 0 <= i < lo ==> s[i] <= x) && (forall i :: lo <= i < |s| ==> s[i] > x)
  {
    lo := 0;
    var hi := |s|;
    while lo < hi
      invariant lo <= hi <= |s|
      invariant forall i :: 0 <= i < lo ==> s[i] <= x
      invariant forall i :: hi <= i < |s| ==> s[i] > x
    {
      var mid := (lo + hi) / 2;
      if x < s[mid] { hi := mid; } else { lo := mid + 1; }
    }
  }

  /** Where the sorted list passes from below x to at least x. */
  method BisectLeft(s: seq<nat>, x: nat) returns (lo: nat)
    requires Sorted(s)
    ensures lo == FirstAtLeast(s, x)
  {
    lo := 0;
    var hi := |s|;
    while lo < hi
      invariant lo <= hi <= |s|
      invariant forall i :: 0 <= i < lo ==> s[i] < x
      invariant forall i :: hi <= i < |s| ==> s[i] >= x
    {
      var mid := (lo + hi) / 2;
      if s[mid] < x { lo := mid + 1; } else { hi := mid; }
    }
    FirstAtLeastIs(s, x, lo);
  }

  lemma {:induction false} FirstAtLeastIs(s: seq<nat>, x: nat, k: nat)
    requires k <= |s| && (forall i :: 0 <= i < k ==> s[i] < x) && (k < |s| ==> s[k] >= x)
    ensures FirstAtLeast(s, x) == k
    decreases k
  {
    if k > 0 { FirstAtLeastIs(s[1..], x, k - 1); }
  }

  class ConsistentHashRing {
    const virtualNodes: nat
    const hash: string -> nat

    var ring: seq<nat>
    var owner: map<nat, string>

    function State(): Ring
      reads this
    {
      Ring(ring, owner)
    }

    constructor (hash: string -> nat, virtualNodes: nat)
      ensures this.hash == hash && this.virtualNodes == virtualNodes && State() == EMPTY_RING
    {
      this.hash, this.virtualNodes := hash, virtualNodes;
      ring, owner := [], map[];
    }

    method AddNode(node: string)
      requires Sorted(ring)
      modifies this
      ensures Sorted(ring)
      ensures State() == Add(old(State()), Positions(hash, node, virtualNodes), node)
    {
      var i := 0;
      while i < virtualNodes
        invariant i <= virtualNodes && Sorted(ring)
        invariant State() == Add(old(State()), Positions(hash, node, i), node)
      {
        var h := hash(Label(node, i));
        assert Positions(hash, node, i + 1)[..i] == Positions(hash, node, i) by { PositionsLength(hash, node, i); }
        Insort(h);
        owner := owner[h := node];
        i := i + 1;
      }
    }

    method Insort(h: nat)
      requires Sorted(ring)
      modifies this`ring
      ensures Sorted(ring) && ring == Insert(old(ring), h)
    {
      var k := BisectRight(ring, h);
      InsertAt(ring, h, k);
      ring := ring[..k] + [h] + ring[k..];
    }

    method RemoveNode(node: string)
      modifies this
      ensures State() == Remove(old(State()), Positions(hash, node, virtualNodes))
    {
      var i := 0;
      while i < virtualNodes
        invariant i <= virtualNodes
        invariant State() == Remove(old(State()), Positions(hash, node, i))
      {
        var h := hash(Label(node, i));
        assert Positions(hash, node, i + 1)[..i] == Positions(hash, node, i) by { PositionsLength(hash, node, i); }
        if h in owner {
          ring := RemoveFirst(ring, h);
          owner := owner - {h};
        }
        i := i + 1;
      }
    }

    method GetNode(key: string) returns (found: Lookup)
      requires Sorted(ring)
      ensures found == Find(State(), hash(key))
    {
      if ring == [] {
        return NoNodes;
      }
      var idx := BisectLeft(ring, hash(key));
      if idx == |ring| {
        idx := 0;
      }
      found := if ring[idx] in owner then OwnedBy(owner[ring[idx]]) else KeyError(ring[idx]);
    }
  }

  lemma PositionsLength(hash: string -> nat, node: string, n: nat)
    ensures |Positions(hash, node, n)| == n
  {
  }
}
