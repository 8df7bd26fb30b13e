/** The lock manager with its mutable dictionaries and lock records. */
module LockManagers {
  import opened Wrappers
  import opened LockCommands
  import opened LockTables
  import Graphs
  import CycleFinders

  class LockState {
    var sharedHolders: set<ClientId>
    var exclusiveHolder: Option<ClientId>
    var waitingQueue: seq<LockRequest>

    function View(): Lock
      reads this
    {
      Lock(sharedHolders, exclusiveHolder, waitingQueue)
    }

    constructor ()
      ensures View() == UNLOCKED
    {
      sharedHolders, exclusiveHolder, waitingQueue := {}, None, [];
    }

    predicate IsFree()
      reads this
      ensures IsFree() <==> View().IsFree()
    {
      sharedHolders == {} && exclusiveHolder == None
    }

    predicate CanAcquireShared()
      reads this
      ensures CanAcquireShared() <==> View().CanAcquireShared()
    {
      exclusiveHolder == None
    }

    predicate CanAcquireExclusive()
      reads this
      ensures CanAcquireExclusive() <==> View().CanAcquireExclusive()
    {
      IsFree()
    }

    /** The release loop: grants what it can and keeps the rest, in place; an exclusive grant ends it. */
    method GrantNext()
      modifies this
      ensures View() == Rescan(old(View()))
    {
      var still := [];
      var i := 0;
      ghost var whole := Scan(View(), waitingQueue);
      while i < |waitingQueue|
        invariant 0 <= i <= |waitingQueue| && waitingQueue == old(waitingQueue)
        invariant var rest := Scan(View(), waitingQueue[i..]);
          whole.lock == rest.lock && whole.still == still + rest.still
      {
        var req := waitingQueue[i];
        assert waitingQueue[i..] == [req] + waitingQueue[i + 1..];
        if req.lockType == Exclusive && CanAcquireExclusive() {
          exclusiveHolder := Some(req.clientId);
          break;
        } else if req.lockType == Shared && CanAcquireShared() {
          sharedHolders := sharedHolders + {req.clientId};
        } else {
          still := still + [req];
        }
        i := i + 1;
      }
      waitingQueue := still;
    }
  }

  class LockManager {
    var locks: map<LockId, LockState>
    var waitFor: WaitFor
    var clientRequests: map<string, LockRequest>

    /** No two lock names share a record. */
    ghost predicate Valid()
      reads this
    {
      forall x, y :: x in locks && y in locks && locks[x] == locks[y] ==> x == y
    }

    ghost function Records(): set<LockState>
      reads this
    {
      locks.Values
    }

    ghost function Table(): LockTable
      reads this, Records()
    {
      LockTable(map id | id in locks :: locks[id].View(), waitFor, clientRequests)
    }

    constructor ()
      ensures Valid() && Table() == EMPTY_TABLE
    {
      locks, waitFor, clientRequests := map[], map[], map[];
    }

    method OnCommit(command: Command)
      requires Valid()
      modifies this, Records()
      ensures Valid() && Table() == ApplyCommand(old(Table()), command)
    {
      match command
      case Acquire(req) => ApplyAcquire(req);
      case Release(id, client) => ApplyRelease(id, client);
      case Other(_) =>
    }

    /** The record for a lock, made on first use. */
    method Record(id: LockId) returns (ls: LockState)
      requires Valid()
      modifies this`locks
      ensures Valid() && id in locks && ls == locks[id] && ls.View() == old(Table()).LockAt(id)
      ensures locks == old(locks)[id := ls]
      ensures (id in old(locks) ==> ls == old(locks)[id]) && (id !in old(locks) ==> fresh(ls))
    {
      if id !in locks {
        var made := new LockState();
        locks := locks[id := made];
      }
      ls := locks[id];
      assert locks == old(locks)[id := ls];
    }

    /** When one record changes, the table changes at its name. */
    twostate lemma OneRecordChanged(id: LockId, new ls: LockState)
      requires Valid() && id in locks && locks[id] == ls && locks == old(locks)[id := ls]
      requires id in old(locks) ==> old(locks)[id] == ls
      requires old(Valid())
      requires forall x :: x in old(locks) && x != id ==> unchanged(old(locks)[x])
      ensures Table().locks == old(Table()).locks[id := ls.View()]
    {
    }

    method ApplyAcquire(req: LockRequest)
      requires Valid()
      modifies this, Records()
      ensures Valid() && Table() == LockTables.ApplyAcquire(old(Table()), req)
    {
      var ls := Record(req.lockId);
      ghost var lock := ls.View();
      if req.lockType == Shared && ls.CanAcquireShared() {
        ls.sharedHolders := ls.sharedHolders + {req.clientId};
      } else if req.lockType == Exclusive && ls.CanAcquireExclusive() {
        ls.exclusiveHolder := Some(req.clientId);
      } else {
        ls.waitingQueue := ls.waitingQueue + [req];
        clientRequests := clientRequests[req.requestId := req];
        var writer := ls.exclusiveHolder;
        var holders := ls.sharedHolders + if writer.Some? && writer.value != "" then {writer.value} else {};
        waitFor := waitFor[req.clientId := (if req.clientId in waitFor then waitFor[req.clientId] else {}) + holders];
      }
      OneRecordChanged(req.lockId, ls);
    }

    method ApplyRelease(id: LockId, client: ClientId)
      requires Valid()
      modifies this, Records()
      ensures Valid() && Table() == LockTables.ApplyRelease(old(Table()), id, client)
    {
      if id !in locks {
        return;
      }
      var ls := locks[id];
      Withdraw(ls, client);
      waitFor := waitFor - {client};
      waitFor := map u | u in waitFor :: Waits(waitFor, u) - {client};
      ls.GrantNext();
      OneRecordChanged(id, ls);
    }

    /** The releasing client stops holding, in whatever mode it held. */
    method Withdraw(ls: LockState, client: ClientId)
      modifies ls
      ensures ls.View() == old(ls.View()).Without(client)
    {
      if ls.exclusiveHolder == Some(client) {
        ls.exclusiveHolder := None;
      }
      ls.sharedHolders := ls.sharedHolders - {client};
    }

    /** The deadlock detector: no list when nobody waits in a circle, and every list is such a circle. */
    method FindCycles() returns (cycles: seq<seq<ClientId>>)
      ensures cycles == [] <==> Graphs.Acyclic(waitFor)
      ensures forall c :: c in cycles ==> Graphs.IsSimpleCycle(waitFor, c)
      ensures forall c :: Graphs.IsCycle(waitFor, c) ==> CycleFinders.Caught(cycles, c)
    {
      var finder := new CycleFinders.CycleFinder(waitFor);
      cycles := finder.FindCycles();
    }
  }
}
