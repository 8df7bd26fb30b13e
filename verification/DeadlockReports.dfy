/** Which deadlocks the detector can see: when the wait-for graph has every edge it should, and how it loses some. */
module DeadlockReports {
  import opened CycleFinders
  import opened Graphs
  import opened LockCommands
  import opened LockSafety
  import opened LockTables
  import opened Wrappers

  /** Whoever is in the way of a queued request is waited for in the graph. */
  ghost predicate Complete(t: LockTable) {
    forall id, req, v :: Blocking(t, id, req, v) ==> v in Waits(t.waitFor, req.clientId)
  }

  /** The same of one lock. */
  ghost predicate Covered(lock: Lock, waitFor: WaitFor) {
    forall req, v :: req in lock.waitingQueue && Conflicts(lock, req, v) ==> v in Waits(waitFor, req.clientId)
  }

  lemma CompleteCovered(t: LockTable)
    ensures Complete(t) <==> forall id :: id in t.locks ==> Covered(t.locks[id], t.waitFor)
  {
    if forall id :: id in t.locks ==> Covered(t.locks[id], t.waitFor) {
      forall id, req, v | Blocking(t, id, req, v) ensures v in Waits(t.waitFor, req.clientId) {
        assert Covered(t.locks[id], t.waitFor);
      }
    } else {
      var id :| id in t.locks && !Covered(t.locks[id], t.waitFor);
      var req, v :| req in t.locks[id].waitingQueue && Conflicts(t.locks[id], req, v)
          && v !in Waits(t.waitFor, req.clientId);
      assert Blocking(t, id, req, v);
    }
  }

  // ---- Acquiring ----

  /**
    A reader let in past queued writers gets no edges from them, so they must have waited for it already; and a
    holder whose name is empty gets none from anybody.
   */
  ghost predicate AcquireCovers(t: LockTable, req: LockRequest) {
    var lock := t.LockAt(req.lockId);
    if lock.Grantable(req) then forall r :: r in lock.waitingQueue ==> req.clientId in Waits(t.waitFor, r.clientId)
    else lock.exclusiveHolder == Some("") ==> "" in Waits(t.waitFor, req.clientId)
  }

  lemma GrantCoveredIff(lock: Lock, req: LockRequest, waitFor: WaitFor)
    requires LockOk(lock) && lock.Grantable(req) && Covered(lock, waitFor)
    ensures Covered(lock.Grant(req), waitFor)
       <==> forall r :: r in lock.waitingQueue ==> req.clientId in Waits(waitFor, r.clientId)
  {
    forall r | r in lock.waitingQueue ensures Conflicts(lock.Grant(req), r, req.clientId) { assert !lock.Grantable(r); }
  }

  lemma QueueCoveredIff(lock: Lock, req: LockRequest, waitFor: WaitFor)
    requires LockOk(lock) && !lock.Grantable(req) && Covered(lock, waitFor)
    ensures Covered(lock.(waitingQueue := lock.waitingQueue + [req]),
                    waitFor[req.clientId := Waits(waitFor, req.clientId) + lock.Holders()])
       <==> (lock.exclusiveHolder == Some("") ==> "" in Waits(waitFor, req.clientId))
  {
    var more := lock.(waitingQueue := lock.waitingQueue + [req]);
    var waitFor' := waitFor[req.clientId := Waits(waitFor, req.clientId) + lock.Holders()];
    assert req in more.waitingQueue;
    if lock.exclusiveHolder == Some("") && "" !in Waits(waitFor, req.clientId) {
      assert Conflicts(more, req, "");
    } else {
      forall r, v | r in more.waitingQueue && Conflicts(more, r, v) ensures v in Waits(waitFor', r.clientId) {
        assert Conflicts(lock, r, v);
        assert r in lock.waitingQueue || r == req;
      }
    }
  }

  lemma AcquireKeepsCompleteIff(t: LockTable, req: LockRequest)
    requires TableOk(t) && Complete(t)
    ensures Complete(ApplyAcquire(t, req)) <==> AcquireCovers(t, req)
  {
    var lock, t' := t.LockAt(req.lockId), ApplyAcquire(t, req);
    CompleteCovered(t);
    CompleteCovered(t');
    assert LockOk(lock) && Covered(lock, t.waitFor);
    if lock.Grantable(req) {
      GrantCoveredIff(lock, req, t.waitFor);
    } else {
      QueueCoveredIff(lock, req, t.waitFor);
      forall id | id in t'.locks && id != req.lockId ensures Covered(t'.locks[id], t'.waitFor) {
        assert Covered(t.locks[id], t.waitFor);
      }
    }
    assert t'.locks[req.lockId] == if lock.Grantable(req) then lock.Grant(req)
                                   else lock.(waitingQueue := lock.waitingQueue + [req]);
  }

  // ---- Releasing ----

  /** On a lock the release is not about, the client may neither wait nor be waited for. */
  ghost predicate Uninvolved(lock: Lock, client: ClientId) {
    client !in Clients(lock.waitingQueue) && (lock.HeldBy(client) ==> lock.waitingQueue == [])
  }

  /**
    On the released lock, whoever stays queued must be another client, and must have waited already for every
    reader that is let in now, among whom the client may not be.
   */
  ghost predicate ReleaseCovers(lock: Lock, client: ClientId, waitFor: WaitFor) {
    var queue, rest := lock.waitingQueue, lock.Without(client);
    if rest.exclusiveHolder.Some? then client !in Clients(queue)
    else if ExclusiveFirst(rest, queue) then true
    else forall r :: r in OfType(queue, Exclusive) ==>
      r.clientId != client && Clients(OfType(queue, Shared)) <= Waits(waitFor, r.clientId) - {client}
  }

  /** When a command keeps the graph complete. */
  ghost predicate OpensNoGap(t: LockTable, command: Command) {
    match command
    case Acquire(req) => AcquireCovers(t, req)
    case Release(id, client) =>
      id in t.locks ==>
        && (forall other :: other in t.locks && other != id ==> Uninvolved(t.locks[other], client))
        && ReleaseCovers(t.locks[id], client, t.waitFor)
    case Other(_) => true
  }

  lemma ForgetWaits(waitFor: WaitFor, client: ClientId, u: ClientId)
    ensures Waits(Forget(waitFor, client), u) == if u == client then {} else Waits(waitFor, u) - {client}
  {
  }

  lemma QueuedBlocked(lock: Lock, i: nat) returns (v: ClientId)
    requires LockOk(lock) && i < |lock.waitingQueue|
    ensures Conflicts(lock, lock.waitingQueue[i], v) && lock.HeldBy(v)
    ensures forall w :: lock.HeldBy(w) ==> Conflicts(lock, lock.waitingQueue[i], w)
  {
    assert !lock.Grantable(lock.waitingQueue[i]);
    if lock.exclusiveHolder.Some? {
      v := lock.exclusiveHolder.value;
    } else {
      v :| v in lock.sharedHolders;
    }
  }

  lemma UninvolvedIff(lock: Lock, waitFor: WaitFor, client: ClientId)
    requires LockOk(lock) && Covered(lock, waitFor)
    ensures Covered(lock, Forget(waitFor, client)) <==> Uninvolved(lock, client)
  {
    forall u ensures Waits(Forget(waitFor, client), u) == if u == client then {} else Waits(waitFor, u) - {client} {
      ForgetWaits(waitFor, client, u);
    }
    if client in Clients(lock.waitingQueue) {
      var i :| 0 <= i < |lock.waitingQueue| && lock.waitingQueue[i].clientId == client;
      var v := QueuedBlocked(lock, i);
      assert lock.waitingQueue[i] in lock.waitingQueue;
    } else if lock.HeldBy(client) && lock.waitingQueue != [] {
      var v := QueuedBlocked(lock, 0);
      assert Conflicts(lock, lock.waitingQueue[0], client);
    } else {
      forall req, v | req in lock.waitingQueue && Conflicts(lock, req, v)
        ensures v in Waits(Forget(waitFor, client), req.clientId)
      {
        assert req.clientId in Clients(lock.waitingQueue);
      }
    }
  }

  lemma ReleasedIff(lock: Lock, waitFor: WaitFor, client: ClientId)
    requires LockOk(lock) && Covered(lock, waitFor)
    ensures Covered(Rescan(lock.Without(client)), Forget(waitFor, client)) <==> ReleaseCovers(lock, client, waitFor)
  {
    var queue, rest, after := lock.waitingQueue, lock.Without(client), Rescan(lock.Without(client));
    forall u ensures Waits(Forget(waitFor, client), u) == if u == client then {} else Waits(waitFor, u) - {client} {
      ForgetWaits(waitFor, client, u);
    }
    ScanOutcome(rest, queue);
    if rest.exclusiveHolder.Some? {
      assert after == rest && rest == lock;
      UninvolvedIff(lock, waitFor, client);
    } else if !ExclusiveFirst(rest, queue) {
      OfTypeOnly(queue, Exclusive);
      ReadersLetInIff(lock, waitFor, client);
    }
  }

  lemma SomeoneReads(lock: Lock, client: ClientId, reading: set<ClientId>) returns (v: ClientId)
    requires lock.Without(client).exclusiveHolder == None && lock.waitingQueue != []
    requires !ExclusiveFirst(lock.Without(client), lock.waitingQueue)
    requires reading == lock.sharedHolders - {client} + Clients(OfType(lock.waitingQueue, Shared))
    ensures v in reading
  {
    if lock.sharedHolders - {client} != {} {
      v :| v in lock.sharedHolders - {client};
    } else {
      var readers := OfType(lock.waitingQueue, Shared);
      v := readers[0].clientId;
      assert v in Clients(readers);
    }
  }

  lemma ReadersLetInIff(lock: Lock, waitFor: WaitFor, client: ClientId)
    requires LockOk(lock) && Covered(lock, waitFor) && lock.Without(client).exclusiveHolder == None
    requires !ExclusiveFirst(lock.Without(client), lock.waitingQueue)
    ensures var readers, writers := OfType(lock.waitingQueue, Shared), OfType(lock.waitingQueue, Exclusive);
      Covered(Lock(lock.sharedHolders - {client} + Clients(readers), None, writers), Forget(waitFor, client))
      <==> forall r :: r in writers ==>
             r.clientId != client && Clients(readers) <= Waits(waitFor, r.clientId) - {client}
  {
    var readers, writers := OfType(lock.waitingQueue, Shared), OfType(lock.waitingQueue, Exclusive);
    var after := Lock(lock.sharedHolders - {client} + Clients(readers), None, writers);
    var waitFor' := Forget(waitFor, client);
    OfTypeOnly(lock.waitingQueue, Exclusive);
    if Covered(after, waitFor') {
      forall r | r in writers
        ensures r.clientId != client && Clients(readers) <= Waits(waitFor, r.clientId) - {client}
      {
        ForgetWaits(waitFor, client, r.clientId);
        var v := SomeoneReads(lock, client, after.sharedHolders);
        assert Conflicts(after, r, v);
        forall w | w in Clients(readers) ensures w in Waits(waitFor, r.clientId) - {client} {
          assert Conflicts(after, r, w);
        }
      }
    } else {
      var r, v :| r in writers && Conflicts(after, r, v) && v !in Waits(waitFor', r.clientId);
      ForgetWaits(waitFor, client, r.clientId);
      assert v in lock.sharedHolders ==> Conflicts(lock, r, v);
    }
  }

  lemma ReleaseKeepsCompleteIff(t: LockTable, id: LockId, client: ClientId)
    requires TableOk(t) && Complete(t) && id in t.locks
    ensures Complete(ApplyRelease(t, id, client)) <==> OpensNoGap(t, Release(id, client))
  {
    var t' := ApplyRelease(t, id, client);
    CompleteCovered(t);
    CompleteCovered(t');
    forall other | other in t.locks && other != id
      ensures Covered(t'.locks[other], t'.waitFor) <==> Uninvolved(t.locks[other], client)
    {
      UninvolvedIff(t.locks[other], t.waitFor, client);
    }
    assert Covered(t.locks[id], t.waitFor);
    ReleasedIff(t.locks[id], t.waitFor, client);
    assert t'.locks.Keys == t.locks.Keys && t'.locks[id] == Rescan(t.locks[id].Without(client));
    if OpensNoGap(t, Release(id, client)) {
      forall other | other in t'.locks ensures Covered(t'.locks[other], t'.waitFor) {}
    } else if other :| other in t.locks && other != id && !Uninvolved(t.locks[other], client) {
      assert !Covered(t'.locks[other], t'.waitFor);
    } else {
      assert !Covered(t'.locks[id], t'.waitFor);
    }
  }

  /** A command keeps the graph complete if and only if it opens no gap. */
  lemma CommandKeepsCompleteIff(t: LockTable, command: Command)
    requires TableOk(t) && Complete(t)
    ensures Complete(ApplyCommand(t, command)) <==> OpensNoGap(t, command)
  {
    match command
    case Acquire(req) => AcquireKeepsCompleteIff(t, req);
    case Release(id, client) => if id in t.locks { ReleaseKeepsCompleteIff(t, id, client); }
    case Other(_) =>
  }

  // ---- Over runs ----

  function After(commands: seq<Command>, n: nat): LockTable
    requires n <= |commands|
  {
    Replay(EMPTY_TABLE, commands[..n])
  }

  lemma {:induction false} ReplayLast(t: LockTable, commands: seq<Command>, last: Command)
    ensures Replay(t, commands + [last]) == ApplyCommand(Replay(t, commands), last)
    decreases |commands|
  {
    var all := commands + [last];
    if commands == [] {
      assert all[1..] == [];
    } else {
      ReplayLast(ApplyCommand(t, commands[0]), commands[1..], last);
      assert all[1..] == commands[1..] + [last];
    }
  }

  /** The graph is complete throughout a run if and only if no command of the run opens a gap. */
  lemma {:induction false} CompleteThroughoutIff(commands: seq<Command>, n: nat)
    requires n <= |commands|
    ensures (forall k :: 0 <= k <= n ==> Complete(After(commands, k)))
       <==> forall k :: 0 <= k < n ==> OpensNoGap(After(commands, k), commands[k])
    decreases n
  {
    if n == 0 {
      assert commands[..0] == [];
    } else {
      CompleteThroughoutIff(commands, n - 1);
      AfterNext(commands, n - 1);
      if Complete(After(commands, n - 1)) { CommandKeepsCompleteIff(After(commands, n - 1), commands[n - 1]); }
    }
  }

  lemma AfterNext(commands: seq<Command>, n: nat)
    requires n < |commands|
    ensures After(commands, n + 1) == ApplyCommand(After(commands, n), commands[n])
    ensures TableOk(After(commands, n)) && EdgesOk(After(commands, n))
  {
    ReplayLast(EMPTY_TABLE, commands[..n], commands[n]);
    assert commands[..n + 1] == commands[..n] + [commands[n]];
    ReplayKeeps(EMPTY_TABLE, commands[..n]);
  }

  /** Each client in the list is queued for something the next one holds in a conflicting mode. */
  ghost predicate IsDeadlock(t: LockTable, clients: seq<ClientId>) {
    clients != [] && forall i {:trigger clients[i]} :: 0 <= i < |clients| ==> Justified(t, clients[i], Next(clients, i))
  }

  /** In a complete graph the cycles are exactly the deadlocks, so the detector reports some whenever there is one. */
  lemma CompleteReportsDeadlocks(t: LockTable, clients: seq<ClientId>)
    requires EdgesOk(t) && Complete(t)
    ensures IsCycle(t.waitFor, clients) <==> IsDeadlock(t, clients)
    ensures IsDeadlock(t, clients) ==> !Acyclic(t.waitFor)
  {
    forall u, v ensures v in Successors(t.waitFor, u) <==> Justified(t, u, v) {
      assert Successors(t.waitFor, u) == Waits(t.waitFor, u);
    }
  }

  // ---- Deadlocks that go unreported ----

  const HELD := LockRequest("r0", "L", "h", Exclusive)
  const READER := LockRequest("r1", "L", "a", Shared)
  const WRITER := LockRequest("r2", "L", "b", Exclusive)
  const OTHER := LockRequest("r3", "M", "b", Exclusive)
  const LAST := LockRequest("r4", "M", "a", Exclusive)

  const UNREPORTED :=
    [Acquire(HELD), Acquire(READER), Acquire(WRITER), Acquire(OTHER), Release("L", "h"), Acquire(LAST)]

  /** a waits for b on M, and b for a, who was let in to read L while b went on waiting; but the graph has no cycle. */
  lemma UnreportedDeadlock()
    ensures var t := Replay(EMPTY_TABLE, UNREPORTED);
      && Blocking(t, "M", LAST, "b") && Blocking(t, "L", WRITER, "a") && IsDeadlock(t, ["a", "b"])
      && t.waitFor == map["a" := {"b"}, "b" := {}] && Acyclic(t.waitFor)
  {
    var t := Replay(EMPTY_TABLE, UNREPORTED);
    UnreportedTable();
    EachBlocksTheOther(t);
    OneEdgeAcyclic(t.waitFor);
  }

  lemma UnreportedTable()
    ensures var t := Replay(EMPTY_TABLE, UNREPORTED);
      && "L" in t.locks && "M" in t.locks && t.waitFor == map["a" := {"b"}, "b" := {}]
      && t.LockAt("L") == Lock({"a"}, None, [WRITER]) && t.LockAt("M") == Lock({}, Some("b"), [LAST])
  {
    var c := UNREPORTED;
    BeforeRelease();
    AfterNext(c, 4);
    ReleaseLetsReaderIn(After(c, 4));
    AfterNext(c, 5);
    LastWaits(After(c, 5));
    assert c[..6] == c;
  }

  lemma EachBlocksTheOther(t: LockTable)
    requires "L" in t.locks && "M" in t.locks
    requires t.LockAt("L") == Lock({"a"}, None, [WRITER]) && t.LockAt("M") == Lock({}, Some("b"), [LAST])
    ensures Blocking(t, "M", LAST, "b") && Blocking(t, "L", WRITER, "a") && IsDeadlock(t, ["a", "b"])
  {
    assert Blocking(t, "M", LAST, "b") && Blocking(t, "L", WRITER, "a");
    assert Justified(t, LAST.clientId, "b") && Justified(t, WRITER.clientId, "a");
    assert LAST.clientId == "a" && WRITER.clientId == "b";
  }

  lemma OneEdgeAcyclic(g: Graph)
    requires g == map["a" := {"b"}, "b" := {}]
    ensures Acyclic(g)
  {
    var order := ["b", "a"];
    assert order[..0] == [] && order[..1] == ["b"];
    assert IsRanked(g, order, []);
    RankedAcyclic(g, order);
  }

  lemma LastWaits(t: LockTable)
    requires t.LockAt("L") == Lock({"a"}, None, [WRITER]) && t.LockAt("M") == Lock({}, Some("b"), [])
    requires "L" in t.locks && t.waitFor == map["a" := {}, "b" := {}]
    ensures var t' := ApplyCommand(t, Acquire(LAST));
      && "L" in t'.locks && "M" in t'.locks && t'.waitFor == map["a" := {"b"}, "b" := {}]
      && t'.LockAt("L") == Lock({"a"}, None, [WRITER]) && t'.LockAt("M") == Lock({}, Some("b"), [LAST])
  {
    assert [] + [LAST] == [LAST];
    assert t.LockAt("M").Holders() == {"b"};
  }

  lemma BeforeRelease()
    ensures var t := After(UNREPORTED, 4);
      && "L" in t.locks && t.LockAt("L") == Lock({}, Some("h"), [READER, WRITER])
      && t.LockAt("M") == Lock({}, Some("b"), []) && t.waitFor == map["a" := {"h"}, "b" := {"h"}]
  {
    var c := UNREPORTED;
    assert c[..0] == [];
    AfterNext(c, 0);
    assert After(c, 1).LockAt("L") == Lock({}, Some("h"), []) && After(c, 1).waitFor == map[];
    AfterNext(c, 1);
    assert After(c, 2).LockAt("L") == Lock({}, Some("h"), [READER]) && After(c, 2).waitFor == map["a" := {"h"}];
    AfterNext(c, 2);
    assert After(c, 3).LockAt("L") == Lock({}, Some("h"), [READER, WRITER]);
    assert After(c, 3).LockAt("M") == UNLOCKED && After(c, 3).waitFor == map["a" := {"h"}, "b" := {"h"}];
    AfterNext(c, 3);
  }

  lemma ReleaseLetsReaderIn(t: LockTable)
    requires "L" in t.locks && t.LockAt("L") == Lock({}, Some("h"), [READER, WRITER])
    requires t.LockAt("M") == Lock({}, Some("b"), []) && t.waitFor == map["a" := {"h"}, "b" := {"h"}]
    ensures var t' := ApplyCommand(t, Release("L", "h"));
      && "L" in t'.locks && t'.LockAt("L") == Lock({"a"}, None, [WRITER])
      && t'.LockAt("M") == Lock({}, Some("b"), []) && t'.waitFor == map["a" := {}, "b" := {}]
  {
    assert t.LockAt("L").Without("h") == Lock({}, None, [READER, WRITER]);
    RescanLetsReaderIn();
    assert {"h"} - {"h"} == {};
  }

  lemma RescanLetsReaderIn()
    ensures Rescan(Lock({}, None, [READER, WRITER])) == Lock({"a"}, None, [WRITER])
  {
    var queue := [READER, WRITER];
    ScanOutcome(Lock({}, None, queue), queue);
    assert queue[1..] == [WRITER] && [WRITER][1..] == [];
    assert OfType([WRITER], Shared) == [] && OfType([WRITER], Exclusive) == [WRITER];
    assert OfType(queue, Shared) == [READER] && OfType(queue, Exclusive) == [WRITER];
    assert Clients([READER]) == {"a"} by { ClientsCons(READER, []); assert Clients([]) == {}; }
  }
}
