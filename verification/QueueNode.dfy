/** A queue node: its ring, and the operations it performs on the shared Redis. */
module QueueNodes {
  import opened HashRings
  import opened ConsistentHashes
  import opened QueueSpec
  import opened RingSafety

  class QueueNode {
    const nodeId: string
    const allNodes: seq<string>
    const ring: ConsistentHashRing
    const maxRetries: nat

    var pending: map<string, seq<string>>
    var inFlight: map<string, map<string, real>>
    var records: map<Key, Record>

    function State(): Redis
      reads this
    {
      Redis(pending, inFlight, records)
    }

    constructor (nodeId: string, peers: seq<string>, hash: string -> nat, virtualNodes: nat, maxRetries: nat)
      ensures this.nodeId == nodeId && this.allNodes == [nodeId] + peers && this.maxRetries == maxRetries
      ensures fresh(ring) && ring.hash == hash && ring.virtualNodes == virtualNodes && ring.State() == EMPTY_RING
      ensures State() == NOTHING_STORED
    {
      this.nodeId, this.allNodes, this.maxRetries := nodeId, [nodeId] + peers, maxRetries;
      ring := new ConsistentHashRing(hash, virtualNodes);
      pending, inFlight, records := map[], map[], map[];
    }

    method Start()
      requires ring.State() == EMPTY_RING
      modifies ring
      ensures ring.State() == Build(ring.hash, ring.virtualNodes, allNodes)
      ensures Sorted(ring.ring)
      ensures ring.virtualNodes > 0 && allNodes != [] ==> Serving(ring.State())
    {
      var i := 0;
      assert allNodes[..0] == [];
      while i < |allNodes|
        invariant i <= |allNodes| && Sorted(ring.ring)
        invariant ring.State() == Build(ring.hash, ring.virtualNodes, allNodes[..i])
      {
        BuildNext(ring.hash, ring.virtualNodes, allNodes, i);
        ring.AddNode(allNodes[i]);
        i := i + 1;
      }
      assert allNodes[..i] == allNodes;
      if ring.virtualNodes > 0 && allNodes != [] {
        BuildServing(ring.hash, ring.virtualNodes, allNodes);
      }
    }

    method StoreMessage(k: Key)
      modifies this
      ensures State() == QueueSpec.StoreMessage(old(State()), k)
    {
      records := records[k := Full(Pending, 0)];
      pending := pending[k.queue := [k.id] + PendingOf(State(), k.queue)];
    }

    /** `arrived`: the owner carried the forwarded request out; `answered`: its answer came back in time. */
    method Produce(k: Key, arrived: bool, answered: bool)
      requires Serving(ring.State())
      modifies this
      ensures var local := Find(ring.State(), ring.hash(k.id)) == OwnedBy(nodeId);
        State() == Produced(old(State()), k, local, arrived, answered)
    {
      var target := ring.GetNode(k.id);
      if target == OwnedBy(nodeId) {
        StoreMessage(k);
      } else {
        if arrived {
          StoreMessage(k);
        }
        if !answered {
          StoreMessage(k);
        }
      }
    }

    method Consume(queue: string, deadline: real) returns (outcome: Outcome)
      modifies this
      ensures (State(), outcome) == QueueSpec.Consume(old(State()), queue, deadline)
    {
      var waiting := PendingOf(State(), queue);
      if waiting == [] {
        return Empty;
      }
      var id := waiting[|waiting| - 1];
      pending := pending[queue := waiting[..|waiting| - 1]];
      var k := Key(queue, id);
      if id == "" || k !in records {
        return Empty;
      }
      match records[k] {
        case StatusOnly(_) =>
          return TypeError;
        case Full(_, retryCount) =>
          records := records[k := Full(InFlight, retryCount)];
          inFlight := inFlight[queue := InFlightOf(State(), queue)[id := deadline]];
          return Delivered(id);
      }
    }

    method Acknowledge(k: Key)
      modifies this
      ensures State() == QueueSpec.Acknowledge(old(State()), k)
    {
      records := records[k := if k in records then records[k].(status := Completed) else StatusOnly(Completed)];
      Land(k);
    }

    method Land(k: Key)
      modifies this`inFlight
      ensures State() == QueueSpec.Land(old(State()), k)
    {
      inFlight := inFlight[k.queue := InFlightOf(State(), k.queue) - {k.id}];
    }

    /** `queues` and `expired` are Redis's answers: the queues with ids in flight, and each one's expired ids. */
    method CheckAndRedeliver(queues: seq<string>, expired: map<string, seq<string>>) returns (ok: bool)
      modifies this
      ensures Swept(State(), ok) == Sweep(old(State()), Listing(queues, expired), maxRetries)
    {
      ok := true;
      var i := 0;
      while i < |queues|
        invariant i <= |queues| && ok
        invariant Swept(State(), ok) == Sweep(old(State()), Listing(queues[..i], expired), maxRetries)
      {
        var ids := IdsOf(queues[i], expired);
        assert queues[..i + 1][..i] == queues[..i];
        SweepAppend(old(State()), Listing(queues[..i], expired), KeysOf(queues[i], ids), maxRetries);
        ok := RedeliverQueue(queues[i], ids);
        i := i + 1;
        if !ok {
          ghost var rest := ListingSplit(queues, expired, i);
          SweepAppend(old(State()), Listing(queues[..i], expired), rest, maxRetries);
          return;
        }
      }
      assert queues[..i] == queues;
    }

    method RedeliverQueue(queue: string, ids: seq<string>) returns (ok: bool)
      modifies this
      ensures Swept(State(), ok) == Sweep(old(State()), KeysOf(queue, ids), maxRetries)
    {
      ok := true;
      var j := 0;
      while j < |ids|
        invariant j <= |ids| && ok
        invariant Swept(State(), ok) == Sweep(old(State()), KeysOf(queue, ids[..j]), maxRetries)
      {
        KeysOfSplit(queue, ids, j);
        ok := Redeliver(Key(queue, ids[j]));
        j := j + 1;
        if !ok {
          KeysOfSplit(queue, ids, j - 1);
          SweepAppend(old(State()), KeysOf(queue, ids[..j]), KeysOf(queue, ids[j..]), maxRetries);
          return;
        }
      }
      assert ids[..j] == ids;
    }

    method Redeliver(x: Key) returns (ok: bool)
      modifies this
      ensures Swept(State(), ok) == QueueSpec.Redeliver(old(State()), x, maxRetries)
    {
      var k := Key(QueueOf(InFlightKey(x.queue)), x.id);
      if k !in records {
        return true;
      }
      match records[k] {
        case StatusOnly(_) =>
          return false;
        case Full(_, retryCount) =>
          if retryCount >= maxRetries {
            records := records[k := Full(Failed, retryCount)];
            Land(x);
            return true;
          }
          records := records[k := Full(Pending, retryCount + 1)];
          Land(x);
          pending := pending[k.queue := [k.id] + PendingOf(State(), k.queue)];
          return true;
      }
    }
  }
}
