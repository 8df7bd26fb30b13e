/** What acquire and release commands do to holders, queues and edges, and how long a granted lock is held. */
module LockEffects {
  import opened LockCommands
  import opened LockSafety
  import opened LockTables
  import opened Wrappers

  /** The client holds the lock in that mode. */
  predicate Holds(t: LockTable, id: LockId, client: ClientId, mode: LockType) {
    match mode
    case Shared => client in t.LockAt(id).sharedHolders
    case Exclusive => t.LockAt(id).exclusiveHolder == Some(client)
  }

  /** No other client holds the lock in a mode that conflicts with this one. */
  predicate NobodyInTheWay(lock: Lock, mode: LockType) {
    lock.exclusiveHolder == None && (mode == Exclusive ==> lock.sharedHolders == {})
  }

  lemma OtherLocksStay(t: LockTable, command: Command, other: LockId)
    requires command.Acquire? ==> command.request.lockId != other
    requires command.Release? ==> command.lockId != other
    ensures ApplyCommand(t, command).LockAt(other) == t.LockAt(other)
  {
  }

  /** With nobody in the way the client becomes a holder in the mode it asked for, and nothing else changes. */
  lemma AcquireGrants(t: LockTable, req: LockRequest)
    requires NobodyInTheWay(t.LockAt(req.lockId), req.lockType)
    ensures var t', id := ApplyCommand(t, Acquire(req)), req.lockId;
      && Holds(t', id, req.clientId, req.lockType)
      && (forall c, mode :: (c, mode) != (req.clientId, req.lockType) ==>
            (Holds(t', id, c, mode) <==> Holds(t, id, c, mode)))
      && t'.LockAt(id).waitingQueue == t.LockAt(id).waitingQueue
      && t'.waitFor == t.waitFor && t'.clientRequests == t.clientRequests
  {
  }

  /** Otherwise the request is the last in the queue, no holder changes, and the client waits for all named holders. */
  lemma AcquireQueues(t: LockTable, req: LockRequest)
    requires !NobodyInTheWay(t.LockAt(req.lockId), req.lockType)
    ensures var t', id, u := ApplyCommand(t, Acquire(req)), req.lockId, req.clientId;
      && (forall c, mode :: Holds(t', id, c, mode) <==> Holds(t, id, c, mode))
      && t'.LockAt(id).waitingQueue == t.LockAt(id).waitingQueue + [req]
      && (forall v :: v in Waits(t'.waitFor, u) <==>
            v in Waits(t.waitFor, u) || Holds(t, id, v, Shared) || (v != "" && Holds(t, id, v, Exclusive)))
      && (forall w :: w != u ==> Waits(t'.waitFor, w) == Waits(t.waitFor, w))
      && t'.clientRequests == t.clientRequests[req.requestId := req]
  {
    var lock := t.LockAt(req.lockId);
    assert ApplyAcquire(t, req).LockAt(req.lockId) == lock.(waitingQueue := lock.waitingQueue + [req]);
  }

  /** With nobody queued, a release takes the lock from the client, in whatever mode it held it, and from no other. */
  lemma ReleaseWithdraws(t: LockTable, id: LockId, client: ClientId)
    requires t.LockAt(id).waitingQueue == []
    ensures var t' := ApplyCommand(t, Release(id, client));
      && (forall c, mode :: Holds(t', id, c, mode) <==> Holds(t, id, c, mode) && c != client)
      && t'.LockAt(id).waitingQueue == []
  {
    if id in t.locks {
      ScanOutcome(t.locks[id].Without(client), []);
      assert t.locks[id].Without(client).sharedHolders + Clients([]) == t.locks[id].Without(client).sharedHolders;
    }
  }

  /**
    With requests queued: if some other client writes, they all go on waiting; else a writer first in line gets a lock
    that nobody is left reading, and the rest of the queue is dropped; else all queued readers join those that are
    left, and the writers go on waiting in their order.
   */
  lemma ReleaseHandsOver(t: LockTable, id: LockId, client: ClientId)
    requires t.LockAt(id).waitingQueue != []
    ensures var lock, lock' := t.LockAt(id), ApplyCommand(t, Release(id, client)).LockAt(id);
      var queue, readers := lock.waitingQueue, lock.sharedHolders - {client};
      if lock.exclusiveHolder.Some? && lock.exclusiveHolder.value != client then
        lock' == Lock(readers, lock.exclusiveHolder, queue)
      else if readers == {} && queue[0].lockType == Exclusive then
        lock' == Lock({}, Some(queue[0].clientId), [])
      else
        lock' == Lock(readers + Clients(OfType(queue, Shared)), None, OfType(queue, Exclusive))
  {
    ScanOutcome(t.locks[id].Without(client), t.locks[id].waitingQueue);
  }

  /** Whatever is queued, the client holds the lock afterwards only if a request of its own was waiting for it. */
  lemma ReleaseEndsHolding(t: LockTable, id: LockId, client: ClientId)
    ensures var t' := ApplyCommand(t, Release(id, client));
      Holds(t', id, client, Shared) || Holds(t', id, client, Exclusive) ==> client in Clients(t.LockAt(id).waitingQueue)
  {
    var queue := t.LockAt(id).waitingQueue;
    if queue == [] {
      ReleaseWithdraws(t, id, client);
    } else {
      ReleaseHandsOver(t, id, client);
      assert queue[0].clientId in Clients(queue);
      OfTypeClients(queue, Shared);
    }
  }

  lemma OfTypeClients(queue: seq<LockRequest>, mode: LockType)
    ensures Clients(OfType(queue, mode)) <= Clients(queue)
  {
    OfTypeOnly(queue, mode);
    forall c | c in Clients(OfType(queue, mode)) ensures c in Clients(queue) {
      var i :| 0 <= i < |OfType(queue, mode)| && OfType(queue, mode)[i].clientId == c;
      assert OfType(queue, mode)[i] in queue;
    }
  }

  /** A release of a lock that exists drops every edge to and from the client, and no other. */
  lemma ReleaseDropsEdges(t: LockTable, id: LockId, client: ClientId, u: ClientId, v: ClientId)
    ensures var t' := ApplyCommand(t, Release(id, client));
      v in Waits(t'.waitFor, u) <==> v in Waits(t.waitFor, u) && (id in t.locks ==> u != client && v != client)
    ensures ApplyCommand(t, Release(id, client)).clientRequests == t.clientRequests
  {
  }

  // ---- Over runs ----

  /** A holder stays one under every command but its own release of that lock. */
  lemma HolderStays(t: LockTable, command: Command, id: LockId, client: ClientId, mode: LockType)
    requires Holds(t, id, client, mode) && command != Release(id, client)
    ensures Holds(ApplyCommand(t, command), id, client, mode)
  {
    match command
    case Acquire(req) =>
      if req.lockId == id {
        if NobodyInTheWay(t.LockAt(id), req.lockType) { AcquireGrants(t, req); } else { AcquireQueues(t, req); }
      }
    case Release(other, releaser) =>
      if other == id {
        if t.LockAt(id).waitingQueue == [] {
          ReleaseWithdraws(t, id, releaser);
        } else {
          ReleaseHandsOver(t, id, releaser);
        }
      }
    case Other(_) =>
  }

  /** So a client whose request is granted holds the lock, in that mode, until it releases that very lock. */
  lemma GrantLasts(t: LockTable, req: LockRequest, more: seq<Command>)
    requires NobodyInTheWay(t.LockAt(req.lockId), req.lockType) && Release(req.lockId, req.clientId) !in more
    ensures Holds(Replay(ApplyCommand(t, Acquire(req)), more), req.lockId, req.clientId, req.lockType)
  {
    AcquireGrants(t, req);
    HeldThroughout(ApplyCommand(t, Acquire(req)), more, req.lockId, req.clientId, req.lockType);
  }

  lemma {:induction false} HeldThroughout(
    t: LockTable, more: seq<Command>, id: LockId, client: ClientId, mode: LockType)
    requires Holds(t, id, client, mode) && Release(id, client) !in more
    ensures Holds(Replay(t, more), id, client, mode)
    decreases |more|
  {
    if more != [] {
      assert more[0] in more;
      HolderStays(t, more[0], id, client, mode);
      HeldThroughout(ApplyCommand(t, more[0]), more[1..], id, client, mode);
    }
  }

  /** After any commands, a writer's release of a lock nobody waits for leaves it free. */
  lemma WriterLeavesFree(commands: seq<Command>, id: LockId, client: ClientId)
    requires var t := Replay(EMPTY_TABLE, commands);
      Holds(t, id, client, Exclusive) && t.LockAt(id).waitingQueue == []
    ensures ApplyCommand(Replay(EMPTY_TABLE, commands), Release(id, client)).LockAt(id) == UNLOCKED
  {
    var t := Replay(EMPTY_TABLE, commands);
    ReaderWriterExclusion(commands, id);
    ReleaseWithdraws(t, id, client);
    var t' := ApplyCommand(t, Release(id, client));
    forall c ensures t'.LockAt(id).exclusiveHolder != Some(c) && c !in t'.LockAt(id).sharedHolders {
      assert !Holds(t', id, c, Exclusive) && !Holds(t', id, c, Shared);
    }
    NoHolder(t'.LockAt(id));
  }

  lemma NoHolder(lock: Lock)
    requires forall c :: lock.exclusiveHolder != Some(c)
    requires (forall c :: c !in lock.sharedHolders) && lock.waitingQueue == []
    ensures lock == UNLOCKED
  {
  }
}
