/** What each queue operation does to the lists, the in-flight sets and the records. */
module QueueEffects {
  import opened QueueRuns
  import opened QueueSafety
  import opened QueueSpec
  import opened Sequences

  /** Nothing of any other message is changed, nor the order in which it waits. */
  ghost predicate OthersStay(s: Redis, t: Redis, k: Key) {
    && (forall j :: j != k ==> (j in t.records <==> j in s.records) && (IsInFlight(t, j) <==> IsInFlight(s, j)))
    && (forall j :: j != k && j in s.records ==> t.records[j] == s.records[j])
    && (forall j :: j != k && IsInFlight(s, j) ==> InFlightOf(t, j.queue)[j.id] == InFlightOf(s, j.queue)[j.id])
    && (forall queue :: queue != k.queue ==> PendingOf(t, queue) == PendingOf(s, queue))
  }

  /** A stored message waits with no retries behind all that waited already. */
  lemma StoreOutcome(s: Redis, k: Key)
    ensures var t := StoreMessage(s, k);
      && OthersStay(s, t, k) && k in t.records && t.records[k] == Full(Pending, 0)
      && PendingOf(t, k.queue) == [k.id] + PendingOf(s, k.queue) && (IsInFlight(t, k) <==> IsInFlight(s, k))
  {
  }

  /** Produce stores the message once for the node itself, or for the owner if reached and again if not answered. */
  lemma ProduceOutcome(s: Redis, k: Key, local: bool, arrived: bool, answered: bool)
    ensures var t := Produced(s, k, local, arrived, answered);
      && Queued(t, k) == Queued(s, k) + (if local then 1 else (if arrived then 1 else 0) + (if answered then 0 else 1))
      && OthersStay(s, t, k)
      && (local || arrived || !answered ==> k in t.records && t.records[k] == Full(Pending, 0))
  {
    StoreOutcome(s, k);
    StoreOutcome(StoreMessage(s, k), k);
    PushQueued(SetRecord(s, k, Full(Pending, 0)), k, k);
    PushQueued(SetRecord(StoreMessage(s, k), k, Full(Pending, 0)), k, k);
    OthersStayTwice(s, StoreMessage(s, k), StoreMessage(StoreMessage(s, k), k), k);
  }

  lemma OthersStayTwice(s: Redis, t: Redis, u: Redis, k: Key)
    requires OthersStay(s, t, k) && OthersStay(t, u, k)
    ensures OthersStay(s, u, k)
  {
  }

  /** A delivered message leaves the front of the list, and is in flight, with its retries, until the deadline. */
  lemma ConsumeOutcome(s: Redis, queue: string, deadline: real)
    requires Consume(s, queue, deadline).1.Delivered?
    ensures var (t, outcome) := Consume(s, queue, deadline);
      var k := Key(queue, outcome.id);
      && OthersStay(s, t, k) && PendingOf(s, queue) == PendingOf(t, queue) + [outcome.id]
      && IsInFlight(t, k) && InFlightOf(t, queue)[k.id] == deadline
      && HasMessage(s, k) && k in t.records && t.records[k] == Full(InFlight, s.records[k].retryCount)
  {
    var p := PendingOf(s, queue);
    assert p == p[..|p| - 1] + [p[|p| - 1]];
  }

  /** A message is delivered exactly when the front id is not empty and has a whole record; otherwise the id is lost. */
  lemma ConsumeOtherwise(s: Redis, queue: string, deadline: real)
    ensures var (t, outcome) := Consume(s, queue, deadline);
      if PendingOf(s, queue) == [] then t == s && outcome == Empty
      else
        var id := PendingOf(s, queue)[|PendingOf(s, queue)| - 1];
        && (outcome.Delivered? <==> id != "" && HasMessage(s, Key(queue, id)))
        && (outcome.TypeError? <==> id != "" && Key(queue, id) in s.records && !HasMessage(s, Key(queue, id)))
        && (!outcome.Delivered? ==>
              PendingOf(s, queue) == PendingOf(t, queue) + [id]
              && t.records == s.records && t.inFlight == s.inFlight
              && forall q :: q != queue ==> PendingOf(t, q) == PendingOf(s, q))
  {
    var p := PendingOf(s, queue);
    if p != [] { assert p == p[..|p| - 1] + [p[|p| - 1]]; }
  }

  /** An acknowledged message is completed wherever it is, and in flight no more; if it is pending, it stays so. */
  lemma AcknowledgeOutcome(s: Redis, k: Key)
    ensures var t := Acknowledge(s, k);
      && OthersStay(s, t, k) && PendingOf(t, k.queue) == PendingOf(s, k.queue) && !IsInFlight(t, k)
      && k in t.records && t.records[k].status == Completed && (HasMessage(t, k) <==> HasMessage(s, k))
      && (HasMessage(s, k) ==> t.records[k].retryCount == s.records[k].retryCount)
  {
  }

  // ---- Where redelivered messages wait ----

  /** What a sweep puts back into the queue's list: the expired ids with retries left, the last one swept first. */
  ghost function Returned(s: Redis, expired: seq<Key>, queue: string, maxRetries: nat): seq<string>
    decreases |expired|
  {
    if expired == [] then []
    else
      var n := |expired| - 1;
      var x := expired[n];
      var back := x.queue == queue && ':' !in queue && HasMessage(s, x) && s.records[x].retryCount < maxRetries;
      (if back then [x.id] else []) + Returned(s, expired[..n], queue, maxRetries)
  }

  /** They wait behind everything that was waiting, and in the order in which they were swept. */
  lemma {:induction false} SweepReturns(s: Redis, expired: seq<Key>, queue: string, maxRetries: nat)
    requires Distinct(expired) && forall x :: x in expired ==> Redeliverable(s, x)
    ensures var t := Sweep(s, expired, maxRetries);
      t.ok ==> PendingOf(t.redis, queue) == Returned(s, expired, queue, maxRetries) + PendingOf(s, queue)
    decreases |expired|
  {
    if expired == [] {
      assert [] + PendingOf(s, queue) == PendingOf(s, queue);
    } else {
      var n := |expired| - 1;
      var x, b, r := expired[n], Sweep(s, expired[..n], maxRetries), Returned(s, expired[..n], queue, maxRetries);
      SweepReturns(s, expired[..n], queue, maxRetries);
      if b.ok {
        SweepLeaves(s, expired[..n], x, maxRetries);
        SweepRecovers(s, expired[..n], x, maxRetries);
        RedeliverReturns(b.redis, x, queue, maxRetries);
        Behind(x.id, r, PendingOf(s, queue));
      }
    }
  }

  lemma Behind(id: string, r: seq<string>, p: seq<string>)
    ensures [id] + (r + p) == ([id] + r) + p && [] + (r + p) == ([] + r) + p
  {
  }

  lemma RedeliverReturns(s: Redis, x: Key, queue: string, maxRetries: nat)
    requires Redeliverable(s, x)
    ensures var back := x.queue == queue && ':' !in queue && s.records[x].retryCount < maxRetries;
      PendingOf(Redeliver(s, x, maxRetries).redis, queue) == (if back then [x.id] else []) + PendingOf(s, queue)
  {
    QueueOfIff(x.queue);
    if ':' in x.queue { RedeliverColon(s, x, maxRetries); }
    assert [] + PendingOf(s, queue) == PendingOf(s, queue);
  }

  /** In any run: a sweep that gets to its end leaves everyone who waited in place, and what it brings back behind. */
  lemma RecoverReturns(steps: seq<Step>, maxRetries: nat, now: real, expired: seq<Key>, queue: string)
    requires IsRun(steps, maxRetries) && IsExpired(After(steps, maxRetries), now, expired)
    requires forall x :: x in expired ==> !Misread(After(steps, maxRetries), x)
    ensures PendingOf(After(steps + [Recover(now, expired)], maxRetries), queue)
         == Returned(After(steps, maxRetries), expired, queue, maxRetries) + PendingOf(After(steps, maxRetries), queue)
  {
    RunKeeps(steps, maxRetries);
    ExpiredRedeliverable(steps, now, expired, maxRetries);
    SweepOkIff(After(steps, maxRetries), expired, maxRetries);
    SweepReturns(After(steps, maxRetries), expired, queue, maxRetries);
    AfterMore(steps, Recover(now, expired), maxRetries, Key(queue, ""));
  }
}
