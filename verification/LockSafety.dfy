/** What holds of the lock table after any sequence of acquire and release commands. */
module LockSafety {
  import opened Wrappers
  import opened LockCommands
  import opened LockTables
  import opened Graphs

  // ---- The scan, in closed form ----

  function OfType(queue: seq<LockRequest>, lockType: LockType): seq<LockRequest> {
    if queue == [] then []
    else (if queue[0].lockType == lockType then [queue[0]] else []) + OfType(queue[1..], lockType)
  }

  function Clients(queue: seq<LockRequest>): set<ClientId> {
    set i | 0 <= i < |queue| :: queue[i].clientId
  }

  ghost predicate ExclusiveFirst(lock: Lock, queue: seq<LockRequest>) {
    lock.IsFree() && queue != [] && queue[0].lockType == Exclusive
  }

  lemma {:induction false} ScanHeld(lock: Lock, queue: seq<LockRequest>)
    requires lock.exclusiveHolder.Some?
    ensures Scan(lock, queue) == ScanKeepingTail(lock, queue) == Scanned(lock, [], queue)
    decreases queue
  {
    if queue != [] {
      ScanHeld(lock, queue[1..]);
      assert [queue[0]] + queue[1..] == queue;
    }
  }

  /** Once somebody reads, all readers get in and no writer does. */
  lemma {:induction false} ScanShared(lock: Lock, queue: seq<LockRequest>)
    requires lock.exclusiveHolder == None && lock.sharedHolders != {}
    ensures Scan(lock, queue) == ScanKeepingTail(lock, queue)
         == Scanned(lock.(sharedHolders := lock.sharedHolders + Clients(OfType(queue, Shared))),
                    OfType(queue, Shared), OfType(queue, Exclusive))
    decreases queue
  {
    if queue == [] {
      assert lock.sharedHolders + Clients([]) == lock.sharedHolders;
    } else {
      var req := queue[0];
      if req.lockType == Shared {
        ScanShared(lock.Grant(req), queue[1..]);
        ClientsCons(req, OfType(queue[1..], Shared));
        assert lock.sharedHolders + {req.clientId} + Clients(OfType(queue[1..], Shared))
            == lock.sharedHolders + ({req.clientId} + Clients(OfType(queue[1..], Shared)));
      } else {
        ScanShared(lock, queue[1..]);
        assert OfType(queue, Shared) == OfType(queue[1..], Shared);
      }
    }
  }

  lemma ClientsCons(req: LockRequest, rest: seq<LockRequest>)
    ensures Clients([req] + rest) == {req.clientId} + Clients(rest)
  {
    var all := [req] + rest;
    forall c | c in {req.clientId} + Clients(rest)
      ensures c in Clients(all)
    {
      if c == req.clientId {
        assert all[0].clientId == c;
      } else {
        var i :| 0 <= i < |rest| && rest[i].clientId == c;
        assert all[i + 1].clientId == c;
      }
    }
  }

  /** The whole scan: nobody behind a writer, one writer if it comes first at a free lock, otherwise all readers. */
  lemma ScanOutcome(lock: Lock, queue: seq<LockRequest>)
    ensures var r, k := Scan(lock, queue), ScanKeepingTail(lock, queue);
      if lock.exclusiveHolder.Some? then r == k == Scanned(lock, [], queue)
      else if ExclusiveFirst(lock, queue) then
        && r == Scanned(lock.Grant(queue[0]), [queue[0]], [])
        && k == Scanned(lock.Grant(queue[0]), [queue[0]], queue[1..])
      else r == k == Scanned(lock.(sharedHolders := lock.sharedHolders + Clients(OfType(queue, Shared))),
                             OfType(queue, Shared), OfType(queue, Exclusive))
  {
    if lock.exclusiveHolder.Some? {
      ScanHeld(lock, queue);
    } else if lock.sharedHolders != {} {
      ScanShared(lock, queue);
    } else if queue == [] {
      assert lock.sharedHolders + Clients([]) == lock.sharedHolders;
    } else if queue[0].lockType == Shared {
      var req := queue[0];
      ScanShared(lock.Grant(req), queue[1..]);
      ClientsCons(req, OfType(queue[1..], Shared));
      assert lock.sharedHolders + {req.clientId} + Clients(OfType(queue[1..], Shared))
          == lock.sharedHolders + ({req.clientId} + Clients(OfType(queue[1..], Shared)));
    }
  }

  // ---- Conservation of requests ----

  /** The queue is the two lists merged, each in its own order: every request is in exactly one of them. */
  ghost predicate Merges(a: seq<LockRequest>, b: seq<LockRequest>, queue: seq<LockRequest>)
    decreases queue
  {
    if queue == [] then a == [] && b == []
    else (
      || (a != [] && a[0] == queue[0] && Merges(a[1..], b, queue[1..]))
      || (b != [] && b[0] == queue[0] && Merges(a, b[1..], queue[1..])))
  }

  lemma {:induction false} MergesCounts(a: seq<LockRequest>, b: seq<LockRequest>, queue: seq<LockRequest>)
    requires Merges(a, b, queue)
    ensures multiset(a) + multiset(b) == multiset(queue) && |a| + |b| == |queue|
    decreases queue
  {
    if queue != [] {
      assert queue == [queue[0]] + queue[1..];
      if a != [] && a[0] == queue[0] && Merges(a[1..], b, queue[1..]) {
        MergesCounts(a[1..], b, queue[1..]);
        assert a == [a[0]] + a[1..];
      } else {
        MergesCounts(a, b[1..], queue[1..]);
        assert b == [b[0]] + b[1..];
      }
    }
  }

  lemma {:induction false} SplitMerges(queue: seq<LockRequest>)
    ensures Merges(OfType(queue, Shared), OfType(queue, Exclusive), queue)
    decreases queue
  {
    if queue != [] {
      SplitMerges(queue[1..]);
      if queue[0].lockType == Shared {
        assert OfType(queue, Shared)[1..] == OfType(queue[1..], Shared);
        assert OfType(queue, Exclusive) == OfType(queue[1..], Exclusive);
      } else {
        assert OfType(queue, Exclusive)[1..] == OfType(queue[1..], Exclusive);
        assert OfType(queue, Shared) == OfType(queue[1..], Shared);
      }
    }
  }

  lemma {:induction false} KeptMerges(queue: seq<LockRequest>)
    ensures Merges([], queue, queue)
    decreases queue
  {
    if queue != [] { KeptMerges(queue[1..]); }
  }

  lemma {:induction false} OfTypeOnly(queue: seq<LockRequest>, lockType: LockType)
    ensures forall r :: r in OfType(queue, lockType) <==> r in queue && r.lockType == lockType
    decreases queue
  {
    if queue != [] { OfTypeOnly(queue[1..], lockType); }
  }

  /** The intended scan loses nothing, whatever the lock: it grants one writer, or all the readers, or nobody. */
  lemma ScanKeepingTailConserves(lock: Lock, queue: seq<LockRequest>)
    ensures var k := ScanKeepingTail(lock, queue);
      && Merges(k.granted, k.still, queue)
      && (k.granted == [] || (|k.granted| == 1 && k.granted[0].lockType == Exclusive)
          || k.granted == OfType(queue, Shared))
  {
    ScanOutcome(lock, queue);
    KeptMerges(queue);
    SplitMerges(queue);
    if queue != [] { KeptMerges(queue[1..]); }
  }

  /** The scan as written loses requests exactly when it grants a writer that others wait behind. */
  lemma ScanConservesIff(lock: Lock, queue: seq<LockRequest>)
    ensures var r := Scan(lock, queue);
      Merges(r.granted, r.still, queue) <==> !(lock.IsFree() && |queue| > 1 && queue[0].lockType == Exclusive)
  {
    var r := Scan(lock, queue);
    ScanOutcome(lock, queue);
    ScanKeepingTailConserves(lock, queue);
    if Merges(r.granted, r.still, queue) {
      MergesCounts(r.granted, r.still, queue);
    }
  }

  /** A release that grants one of two waiting writers: the other is forgotten, neither holding nor waiting. */
  lemma ScanLosesARequest()
    ensures var a, b := LockRequest("r1", "L", "a", Exclusive), LockRequest("r2", "L", "b", Exclusive);
      var h := LockRequest("r0", "L", "h", Exclusive);
      var t := Replay(EMPTY_TABLE, [Acquire(h), Acquire(a), Acquire(b), Release("L", "h")]);
      t.LockAt("L") == Lock({}, Some("a"), [])
  {
    var h := LockRequest("r0", "L", "h", Exclusive);
    var a, b := LockRequest("r1", "L", "a", Exclusive), LockRequest("r2", "L", "b", Exclusive);
    var commands := [Acquire(h), Acquire(a), Acquire(b), Release("L", "h")];
    var t1 := ApplyCommand(EMPTY_TABLE, commands[0]);
    var t2 := ApplyCommand(t1, commands[1]);
    var t3 := ApplyCommand(t2, commands[2]);
    assert t3.LockAt("L") == Lock({}, Some("h"), [a, b]);
    ScanOutcome(Lock({}, None, [a, b]), [a, b]);
    var t4 := ApplyCommand(t3, commands[3]);
    assert commands[1..][1..][1..] == [commands[3]] && commands[1..][1..][0] == commands[2]
        && commands[1..][0] == commands[1];
    assert Replay(t4, []) == Replay(t3, commands[1..][1..][1..]);
    assert Replay(t3, commands[1..][1..][1..]) == Replay(t2, commands[1..][1..]);
    assert Replay(t2, commands[1..][1..]) == Replay(t1, commands[1..]);
  }

  // ---- Exclusion, and no lost wake-up ----

  ghost predicate Exclusion(lock: Lock) {
    lock.exclusiveHolder.Some? ==> lock.sharedHolders == {}
  }

  /** A writer holds alone, and nobody waits for what could be granted now. */
  ghost predicate LockOk(lock: Lock) {
    Exclusion(lock) && forall i :: 0 <= i < |lock.waitingQueue| ==> !lock.Grantable(lock.waitingQueue[i])
  }

  ghost predicate TableOk(t: LockTable) {
    forall id :: id in t.locks ==> LockOk(t.locks[id])
  }

  lemma RescanOk(lock: Lock)
    requires Exclusion(lock)
    ensures LockOk(Rescan(lock))
  {
    var queue := lock.waitingQueue;
    ScanOutcome(lock, queue);
    OfTypeOnly(queue, Exclusive);
    if lock.exclusiveHolder == None && !ExclusiveFirst(lock, queue) && lock.sharedHolders == {} && queue != [] {
      assert OfType(queue, Shared)[0] == queue[0];
      assert queue[0].clientId in Clients(OfType(queue, Shared));
    }
    var lock' := Rescan(lock);
    forall i | 0 <= i < |lock'.waitingQueue|
      ensures !lock'.Grantable(lock'.waitingQueue[i])
    {
      if lock.exclusiveHolder == None {
        assert lock'.waitingQueue[i] in OfType(queue, Exclusive);
      }
    }
  }

  lemma CommandKeepsTableOk(t: LockTable, command: Command)
    requires TableOk(t)
    ensures TableOk(ApplyCommand(t, command))
  {
    match command
    case Acquire(req) => assert LockOk(t.LockAt(req.lockId));
    case Release(id, client) => if id in t.locks { RescanOk(t.locks[id].Without(client)); }
    case Other(_) =>
  }

  // ---- The wait-for graph ----

  /** v holds the lock in a mode that conflicts with the request. */
  ghost predicate Conflicts(lock: Lock, req: LockRequest, v: ClientId) {
    lock.exclusiveHolder == Some(v) || (v in lock.sharedHolders && req.lockType == Exclusive)
  }

  /** The request is queued for the lock, and v is in its way. */
  ghost predicate Blocking(t: LockTable, id: LockId, req: LockRequest, v: ClientId) {
    id in t.locks && req in t.locks[id].waitingQueue && Conflicts(t.locks[id], req, v)
  }

  ghost predicate Justified(t: LockTable, u: ClientId, v: ClientId) {
    exists id, req: LockRequest :: req.clientId == u && Blocking(t, id, req, v)
  }

  /** Every edge u -> v of the graph: u is queued for something v holds in a conflicting mode. */
  ghost predicate EdgesOk(t: LockTable) {
    forall u, v :: v in Waits(t.waitFor, u) ==> Justified(t, u, v)
  }

  lemma RescanKeepsBlocked(lock: Lock, req: LockRequest, v: ClientId)
    requires req in lock.waitingQueue
    requires lock.exclusiveHolder == Some(v) || (v in lock.sharedHolders && req.lockType == Exclusive)
    requires Exclusion(lock)
    ensures req in Rescan(lock).waitingQueue
    ensures Rescan(lock).exclusiveHolder == lock.exclusiveHolder && lock.sharedHolders <= Rescan(lock).sharedHolders
  {
    ScanOutcome(lock, lock.waitingQueue);
    OfTypeOnly(lock.waitingQueue, Exclusive);
  }

  /** Only the holder's own release of that very lock can unblock a request. */
  lemma BlockedUntilRelease(t: LockTable, command: Command, id: LockId, req: LockRequest, v: ClientId)
    requires TableOk(t) && Blocking(t, id, req, v) && command != Release(id, v)
    ensures Blocking(ApplyCommand(t, command), id, req, v)
  {
    match command
    case Acquire(other) =>
    case Release(other, client) =>
      if other == id { RescanKeepsBlocked(t.locks[id].Without(client), req, v); }
    case Other(_) =>
  }

  lemma CommandKeepsEdgesOk(t: LockTable, command: Command)
    requires TableOk(t) && EdgesOk(t)
    ensures EdgesOk(ApplyCommand(t, command))
  {
    var t' := ApplyCommand(t, command);
    forall u, v | v in Waits(t'.waitFor, u)
      ensures Justified(t', u, v)
    {
      if v in Waits(t.waitFor, u) {
        var id, req: LockRequest :| req.clientId == u && Blocking(t, id, req, v);
        BlockedUntilRelease(t, command, id, req, v);
      } else {
        var req := command.request;
        assert LockOk(t.LockAt(req.lockId));
        assert Blocking(t', req.lockId, req, v);
      }
    }
  }

  lemma {:induction false} ReplayKeeps(t: LockTable, commands: seq<Command>)
    requires TableOk(t) && EdgesOk(t)
    ensures TableOk(Replay(t, commands)) && EdgesOk(Replay(t, commands))
    decreases commands
  {
    if commands != [] {
      CommandKeepsTableOk(t, commands[0]);
      CommandKeepsEdgesOk(t, commands[0]);
      ReplayKeeps(ApplyCommand(t, commands[0]), commands[1..]);
    }
  }

  // ---- Theorems about every run ----

  /** A writer excludes readers; a free lock has nobody waiting; a waiting reader waits for a writer. */
  lemma ReaderWriterExclusion(commands: seq<Command>, id: LockId)
    ensures var lock := Replay(EMPTY_TABLE, commands).LockAt(id);
      && (lock.exclusiveHolder.Some? ==> lock.sharedHolders == {})
      && (lock.IsFree() ==> lock.waitingQueue == [])
      && (forall r :: r in lock.waitingQueue && r.lockType == Shared ==> lock.exclusiveHolder.Some?)
      && (forall r :: r in lock.waitingQueue ==> !lock.Grantable(r))
  {
    ReplayKeeps(EMPTY_TABLE, commands);
    var lock := Replay(EMPTY_TABLE, commands).LockAt(id);
    assert LockOk(lock);
    if lock.waitingQueue != [] { assert !lock.Grantable(lock.waitingQueue[0]); }
  }

  lemma {:induction false} BlockedThroughout(
    t: LockTable, more: seq<Command>, id: LockId, req: LockRequest, v: ClientId)
    requires TableOk(t) && Blocking(t, id, req, v) && Release(id, v) !in more
    ensures Blocking(Replay(t, more), id, req, v)
    decreases more
  {
    if more != [] {
      assert more[0] in more;
      BlockedUntilRelease(t, more[0], id, req, v);
      CommandKeepsTableOk(t, more[0]);
      BlockedThroughout(ApplyCommand(t, more[0]), more[1..], id, req, v);
    }
  }

  /** Edges between clients that release nothing stay. */
  lemma {:induction false} EdgeStays(t: LockTable, more: seq<Command>, u: ClientId, v: ClientId)
    requires v in Waits(t.waitFor, u)
    requires forall c :: c in more && c.Release? ==> c.clientId != u && c.clientId != v
    ensures v in Waits(Replay(t, more).waitFor, u)
    decreases more
  {
    if more != [] {
      assert more[0] in more;
      EdgeStays(ApplyCommand(t, more[0]), more[1..], u, v);
    }
  }

  /**
    Reported deadlocks are real and permanent.  Along a cycle of the graph each client is queued for something the
    next one holds; and as long as no member of the cycle releases, whatever else is committed, each of those
    requests stays queued behind the same holder, and the cycle stays in the graph.
   */
  lemma DeadlockPermanent(commands: seq<Command>, cycle: seq<ClientId>, more: seq<Command>)
    requires IsCycle(Replay(EMPTY_TABLE, commands).waitFor, cycle)
    requires forall c :: c in more && c.Release? ==> c.clientId !in cycle
    ensures var t := Replay(EMPTY_TABLE, commands); var t' := Replay(t, more);
      && (forall i :: 0 <= i < |cycle| ==> Justified(t, cycle[i], Next(cycle, i)))
      && (forall i, id, req :: 0 <= i < |cycle| && Blocking(t, id, req, Next(cycle, i)) ==>
          Blocking(t', id, req, Next(cycle, i)))
      && IsCycle(t'.waitFor, cycle)
  {
    var t := Replay(EMPTY_TABLE, commands);
    ReplayKeeps(EMPTY_TABLE, commands);
    forall i | 0 <= i < |cycle|
      ensures Justified(t, cycle[i], Next(cycle, i)) && Next(cycle, i) in Waits(Replay(t, more).waitFor, cycle[i])
    {
      assert Next(cycle, i) in Successors(t.waitFor, cycle[i]);
      EdgeStays(t, more, cycle[i], Next(cycle, i));
    }
    forall i, id, req | 0 <= i < |cycle| && Blocking(t, id, req, Next(cycle, i))
      ensures Blocking(Replay(t, more), id, req, Next(cycle, i))
    {
      BlockedThroughout(t, more, id, req, Next(cycle, i));
    }
  }
}
