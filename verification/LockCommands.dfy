/** The commands that clients replicate through the Raft log. */
module LockCommands {
  type ClientId = string
  type LockId = string

  datatype LockType = Shared | Exclusive

  datatype LockRequest = LockRequest(requestId: string, lockId: LockId, clientId: ClientId, lockType: LockType)

  /** `Other` stands for every command the lock manager ignores. */
  datatype Command =
    | Acquire(request: LockRequest)
    | Release(lockId: LockId, clientId: ClientId)
    | Other(payload: string)
}
