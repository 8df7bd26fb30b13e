/** The replicated lock table as a value, and what each committed command does to it. */
module LockTables {
  import opened Wrappers
  import opened LockCommands

  /** One lock: who holds it, in which mode, and who waits for it. */
  datatype Lock = Lock(
    sharedHolders: set<ClientId>, exclusiveHolder: Option<ClientId>, waitingQueue: seq<LockRequest>)
  {
    predicate IsFree() {
      sharedHolders == {} && exclusiveHolder == None
    }

    predicate CanAcquireShared() {
      exclusiveHolder == None
    }

    predicate CanAcquireExclusive() {
      IsFree()
    }

    predicate Grantable(req: LockRequest) {
      match req.lockType
      case Shared => CanAcquireShared()
      case Exclusive => CanAcquireExclusive()
    }

    /** The request is granted: its client becomes a holder. */
    function Grant(req: LockRequest): Lock {
      match req.lockType
      case Shared => this.(sharedHolders := sharedHolders + {req.clientId})
      case Exclusive => this.(exclusiveHolder := Some(req.clientId))
    }

    /** The holders a newly queued client waits for; an empty client name does not count as a holder. */
    function Holders(): set<ClientId> {
      sharedHolders + if exclusiveHolder.Some? && exclusiveHolder.value != "" then {exclusiveHolder.value} else {}
    }

    predicate HeldBy(client: ClientId) {
      client in sharedHolders || exclusiveHolder == Some(client)
    }

    function Without(client: ClientId): Lock {
      this.(exclusiveHolder := if exclusiveHolder == Some(client) then None else exclusiveHolder,
            sharedHolders := sharedHolders - {client})
    }
  }

  const UNLOCKED := Lock({}, None, [])

  type WaitFor = map<ClientId, set<ClientId>>

  datatype LockTable = LockTable(locks: map<LockId, Lock>, waitFor: WaitFor, clientRequests: map<string, LockRequest>) {
    function LockAt(id: LockId): Lock {
      if id in locks then locks[id] else UNLOCKED
    }
  }

  const EMPTY_TABLE := LockTable(map[], map[], map[])

  function Waits(waitFor: WaitFor, client: ClientId): set<ClientId> {
    if client in waitFor then waitFor[client] else {}
  }

  // ---- The rescan after a release ----

  /** The outcome of scanning a queue: the lock, the requests granted, and those still waiting, both in queue order. */
  datatype Scanned = Scanned(lock: Lock, granted: seq<LockRequest>, still: seq<LockRequest>) {
    function Granting(req: LockRequest): Scanned {
      this.(granted := [req] + granted)
    }

    function Keeping(req: LockRequest): Scanned {
      this.(still := [req] + still)
    }
  }

  /** The scan as written: it stops at an exclusive grant, and what lies behind that request is dropped. */
  function Scan(lock: Lock, queue: seq<LockRequest>): Scanned
    decreases queue
  {
    if queue == [] then Scanned(lock, [], [])
    else
      var req := queue[0];
      if !lock.Grantable(req) then Scan(lock, queue[1..]).Keeping(req)
      else if req.lockType == Exclusive then Scanned(lock.Grant(req), [req], [])
      else Scan(lock.Grant(req), queue[1..]).Granting(req)
  }

  /** The scan as intended: after an exclusive grant the rest of the queue keeps waiting. */
  function ScanKeepingTail(lock: Lock, queue: seq<LockRequest>): Scanned
    decreases queue
  {
    if queue == [] then Scanned(lock, [], [])
    else
      var req := queue[0];
      if !lock.Grantable(req) then ScanKeepingTail(lock, queue[1..]).Keeping(req)
      else if req.lockType == Exclusive then Scanned(lock.Grant(req), [req], queue[1..])
      else ScanKeepingTail(lock.Grant(req), queue[1..]).Granting(req)
  }

  function Rescan(lock: Lock): Lock {
    var scanned := Scan(lock, lock.waitingQueue);
    scanned.lock.(waitingQueue := scanned.still)
  }

  // ---- Commands ----

  function ApplyAcquire(t: LockTable, req: LockRequest): LockTable {
    var lock := t.LockAt(req.lockId);
    if lock.Grantable(req) then t.(locks := t.locks[req.lockId := lock.Grant(req)])
    else LockTable(
      t.locks[req.lockId := lock.(waitingQueue := lock.waitingQueue + [req])],
      t.waitFor[req.clientId := Waits(t.waitFor, req.clientId) + lock.Holders()],
      t.clientRequests[req.requestId := req])
  }

  function Discard(waitFor: WaitFor, client: ClientId): WaitFor {
    map u | u in waitFor :: Waits(waitFor, u) - {client}
  }

  function Forget(waitFor: WaitFor, client: ClientId): WaitFor {
    Discard(waitFor - {client}, client)
  }

  function ApplyRelease(t: LockTable, id: LockId, client: ClientId): LockTable {
    if id !in t.locks then t
    else t.(locks := t.locks[id := Rescan(t.locks[id].Without(client))], waitFor := Forget(t.waitFor, client))
  }

  function ApplyCommand(t: LockTable, command: Command): LockTable {
    match command
    case Acquire(req) => ApplyAcquire(t, req)
    case Release(id, client) => ApplyRelease(t, id, client)
    case Other(_) => t
  }

  /** The table after a sequence of committed commands. */
  function Replay(t: LockTable, commands: seq<Command>): LockTable
    decreases commands
  {
    if commands == [] then t else Replay(ApplyCommand(t, commands[0]), commands[1..])
  }
}
