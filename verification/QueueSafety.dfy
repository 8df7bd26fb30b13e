/** No message is lost, duplicated or delivered too often, over every run of the queue operations. */
module QueueSafety {
  import opened QueueSpec
  import opened Sequences

  datatype Step =
    | Store(key: Key)
    | Take(queue: string, deadline: real)
    | Ack(key: Key)
    | Recover(now: real, expired: seq<Key>)

  function Do(s: Redis, step: Step, maxRetries: nat): Redis {
    match step
    case Store(k) => StoreMessage(s, k)
    case Take(queue, deadline) => Consume(s, queue, deadline).0
    case Ack(k) => Acknowledge(s, k)
    case Recover(_, expired) => Sweep(s, expired, maxRetries).redis
  }

  function After(steps: seq<Step>, maxRetries: nat): Redis
    decreases |steps|
  {
    if steps == [] then NOTHING_STORED
    else Do(After(steps[..|steps| - 1], maxRetries), steps[|steps| - 1], maxRetries)
  }

  predicate Delivers(s: Redis, step: Step, k: Key) {
    step.Take? && step.queue == k.queue && Consume(s, step.queue, step.deadline).1 == Delivered(k.id)
  }

  /** How often consumers were handed the message. */
  function Deliveries(steps: seq<Step>, maxRetries: nat, k: Key): nat
    decreases |steps|
  {
    if steps == [] then 0
    else
      var n := |steps| - 1;
      Deliveries(steps[..n], maxRetries, k)
      + if Delivers(After(steps[..n], maxRetries), steps[n], k) then 1 else 0
  }

  /** The id is new in every queue, as a fresh UUID is, and not empty. */
  ghost predicate FreshId(s: Redis, id: string) {
    id != "" && forall queue :: !HasMessage(s, Key(queue, id))
  }

  /** The list holds each id in flight whose deadline has passed, once. */
  ghost predicate IsExpired(s: Redis, now: real, expired: seq<Key>) {
    && Distinct(expired)
    && (forall k :: k in expired <==> IsInFlight(s, k) && InFlightOf(s, k.queue)[k.id] <= now)
  }

  ghost predicate Enabled(s: Redis, step: Step) {
    match step
    case Store(k) => FreshId(s, k.id)
    case Recover(now, expired) => IsExpired(s, now, expired)
    case _ => true
  }

  ghost predicate IsRun(steps: seq<Step>, maxRetries: nat)
    decreases |steps|
  {
    steps == []
    || var n := |steps| - 1;
       IsRun(steps[..n], maxRetries) && Enabled(After(steps[..n], maxRetries), steps[n])
  }

  // ---- The invariant, one message at a time ----

  ghost function Queued(s: Redis, k: Key): nat {
    Count(PendingOf(s, k.queue), k.id)
  }

  /** d deliveries so far, and acknowledged or not. */
  ghost predicate Sound(s: Redis, k: Key, d: nat, acked: bool, maxRetries: nat) {
    if HasMessage(s, k) then
      var r := s.records[k];
      && Queued(s, k) + (if IsInFlight(s, k) then 1 else 0) <= 1
      && r.retryCount <= maxRetries
      && d == r.retryCount + (if Queued(s, k) > 0 then 0 else 1)
      && (if IsInFlight(s, k) then r.status == InFlight
          else if Queued(s, k) > 0 then r.status == Pending || (r.status == Completed && acked)
          else (r.status == Completed && acked) || (r.status == Failed && r.retryCount == maxRetries))
    else
      Queued(s, k) == 0 && !IsInFlight(s, k) && d == 0
  }

  /** No id is empty, and none belongs to messages of two queues. */
  ghost predicate Alone(s: Redis, k: Key) {
    HasMessage(s, k) ==> k.id != "" && forall queue :: HasMessage(s, Key(queue, k.id)) ==> queue == k.queue
  }

  ghost predicate IdsApart(s: Redis) {
    forall k :: Alone(s, k)
  }

  ghost predicate Inv(steps: seq<Step>, maxRetries: nat) {
    forall k :: Sound(After(steps, maxRetries), k, Deliveries(steps, maxRetries, k), Ack(k) in steps, maxRetries)
  }

  // ---- Each operation, seen from one message ----

  lemma PushQueued(s: Redis, k: Key, j: Key)
    ensures Queued(Push(s, k), j) == Queued(s, j) + if j == k then 1 else 0
  {
  }

  lemma LandQueued(s: Redis, k: Key, j: Key)
    ensures Queued(Land(s, k), j) == Queued(s, j)
    ensures IsInFlight(Land(s, k), j) <==> IsInFlight(s, j) && j != k
  {
  }

  /** Storing keeps the message sound exactly when it was never stored before, whatever its queue is called. */
  lemma StoreSoundIff(s: Redis, k: Key, d: nat, acked: bool, maxRetries: nat)
    requires Sound(s, k, d, acked, maxRetries)
    ensures Sound(StoreMessage(s, k), k, d, acked, maxRetries) <==> !HasMessage(s, k)
  {
    PushQueued(SetRecord(s, k, Full(Pending, 0)), k, k);
  }

  lemma StoreOthers(s: Redis, k: Key, j: Key, d: nat, acked: bool, maxRetries: nat)
    requires Sound(s, j, d, acked, maxRetries) && j != k
    ensures Sound(StoreMessage(s, k), j, d, acked, maxRetries)
  {
    PushQueued(SetRecord(s, k, Full(Pending, 0)), k, j);
  }

  /** The next id a consumer would take is empty, which the code reads as an empty list. */
  predicate TakesEmptyId(s: Redis, queue: string) {
    var p := PendingOf(s, queue);
    p != [] && p[|p| - 1] == ""
  }

  lemma TakeSound(s: Redis, step: Step, j: Key, d: nat, acked: bool, maxRetries: nat)
    requires step.Take? && Sound(s, j, d, acked, maxRetries) && !TakesEmptyId(s, step.queue)
    ensures Sound(Do(s, step, maxRetries), j, d + (if Delivers(s, step, j) then 1 else 0), acked, maxRetries)
  {
    var p := PendingOf(s, step.queue);
    if p != [] {
      var k := Key(step.queue, p[|p| - 1]);
      TakeQueued(s, step, j);
      if j == k {
        assert HasMessage(s, k) && Delivers(s, step, k);
      } else {
        TakeOthers(s, step, j);
      }
    }
  }

  lemma TakeLosesEmptyId(s: Redis, step: Step, d: nat, acked: bool, maxRetries: nat)
    requires step.Take? && TakesEmptyId(s, step.queue)
    requires Sound(s, Key(step.queue, ""), d, acked, maxRetries)
    ensures var k := Key(step.queue, "");
      !Delivers(s, step, k) && !Sound(Do(s, step, maxRetries), k, d, acked, maxRetries)
  {
    TakeQueued(s, step, Key(step.queue, ""));
  }

  lemma TakeQueued(s: Redis, step: Step, j: Key)
    requires step.Take?
    ensures var p := PendingOf(s, step.queue);
      p != [] ==> Queued(Do(s, step, 0), j) == Queued(s, j) - if j == Key(step.queue, p[|p| - 1]) then 1 else 0
  {
    var p := PendingOf(s, step.queue);
    if p != [] { CountLast(p, j.id); }
  }

  lemma TakeOthers(s: Redis, step: Step, j: Key)
    requires step.Take?
    ensures var p, t := PendingOf(s, step.queue), Do(s, step, 0);
      p != [] && j != Key(step.queue, p[|p| - 1]) ==>
        && !Delivers(s, step, j) && (IsInFlight(t, j) <==> IsInFlight(s, j))
        && (HasMessage(t, j) <==> HasMessage(s, j)) && (HasMessage(s, j) ==> t.records[j] == s.records[j])
  {
  }

  lemma AckSound(s: Redis, k: Key, j: Key, d: nat, acked: bool, maxRetries: nat)
    requires Sound(s, j, d, acked, maxRetries)
    ensures Sound(Acknowledge(s, k), j, d, acked || j == k, maxRetries)
  {
    var r := if k in s.records then s.records[k].(status := Completed) else StatusOnly(Completed);
    LandQueued(SetRecord(s, k, r), k, j);
  }

  // ---- Redelivery ----

  lemma {:induction false} BeforeColon(queue: string, rest: string)
    ensures UpToColon(queue + ":" + rest) == queue <==> ':' !in queue
    decreases |queue|
  {
    var s := queue + ":" + rest;
    if queue != "" {
      assert s[1..] == queue[1..] + ":" + rest;
      BeforeColon(queue[1..], rest);
    }
  }

  /** The loop gets a queue's name back from its key exactly when the name has no colon. */
  lemma QueueOfIff(queue: string)
    ensures QueueOf(InFlightKey(queue)) == queue <==> ':' !in queue
  {
    var key := InFlightKey(queue);
    var rest := queue + ":in_flight";
    AfterFirstColon("queue", rest);
    assert key == "queue" + ":" + rest;
    assert rest == queue + ":" + "in_flight";
    BeforeColon(queue, "in_flight");
  }

  lemma {:induction false} AfterFirstColon(field: string, rest: string)
    requires ':' !in field
    ensures AfterColon(field + ":" + rest) == rest
    decreases |field|
  {
    var s := field + ":" + rest;
    if field != "" {
      assert s[1..] == field[1..] + ":" + rest;
      AfterFirstColon(field[1..], rest);
    } else {
      assert s[1..] == rest;
    }
  }

  /** An expired message leaves the in-flight set exactly when its queue's name has no colon. */
  lemma RecoveredIff(s: Redis, x: Key, maxRetries: nat)
    requires IsInFlight(s, x) && HasMessage(s, x)
    requires forall queue :: HasMessage(s, Key(queue, x.id)) ==> queue == x.queue
    ensures IsInFlight(Redeliver(s, x, maxRetries).redis, x) <==> ':' in x.queue
  {
    QueueOfIff(x.queue);
    var k := Key(QueueOf(InFlightKey(x.queue)), x.id);
    assert HasMessage(s, k) <==> ':' !in x.queue;
  }

  /** What the redelivery loop needs of an id it is given. */
  ghost predicate Redeliverable(s: Redis, x: Key) {
    IsInFlight(s, x) && HasMessage(s, x) && Alone(s, x) && Queued(s, x) == 0
  }

  lemma RedeliverEffect(s: Redis, x: Key, j: Key, maxRetries: nat)
    requires HasMessage(s, x) && ':' !in x.queue
    ensures var t, r := Redeliver(s, x, maxRetries), s.records[x];
      var again := r.retryCount < maxRetries;
      && t.ok
      && t.redis.records == s.records[x :=
           if again then Full(Pending, r.retryCount + 1) else Full(Failed, r.retryCount)]
      && Queued(t.redis, j) == Queued(s, j) + (if j == x && again then 1 else 0)
      && (IsInFlight(t.redis, j) <==> IsInFlight(s, j) && j != x)
  {
    QueueOfIff(x.queue);
    var r := s.records[x];
    if r.retryCount >= maxRetries {
      LandQueued(SetRecord(s, x, Full(Failed, r.retryCount)), x, j);
    } else {
      var b := SetRecord(s, x, Full(Pending, r.retryCount + 1));
      LandQueued(b, x, j);
      PushQueued(Land(b, x), x, j);
    }
  }

  /** The loop looks for the message under another queue's name, finds none there, and changes nothing. */
  lemma RedeliverColon(s: Redis, x: Key, maxRetries: nat)
    requires HasMessage(s, x) && Alone(s, x) && ':' in x.queue
    ensures Redeliver(s, x, maxRetries).redis == s
  {
    QueueOfIff(x.queue);
    assert !HasMessage(s, Key(QueueOf(InFlightKey(x.queue)), x.id));
  }

  lemma RedeliverSound(s: Redis, x: Key, j: Key, d: nat, acked: bool, maxRetries: nat)
    requires Redeliverable(s, x) && Sound(s, j, d, acked, maxRetries)
    ensures Sound(Redeliver(s, x, maxRetries).redis, j, d, acked, maxRetries)
  {
    if ':' in x.queue { RedeliverColon(s, x, maxRetries); } else { RedeliverEffect(s, x, j, maxRetries); }
  }

  lemma RedeliverHasMessage(s: Redis, x: Key, k: Key, maxRetries: nat)
    ensures HasMessage(Redeliver(s, x, maxRetries).redis, k) <==> HasMessage(s, k)
    ensures k in Redeliver(s, x, maxRetries).redis.records <==> k in s.records
  {
  }

  lemma RedeliverOthers(s: Redis, x: Key, y: Key, maxRetries: nat)
    requires Redeliverable(s, x) && Redeliverable(s, y) && x != y
    ensures Redeliverable(Redeliver(s, x, maxRetries).redis, y)
  {
    if ':' in x.queue {
      RedeliverColon(s, x, maxRetries);
    } else {
      RedeliverEffect(s, x, y, maxRetries);
      forall queue
        ensures HasMessage(Redeliver(s, x, maxRetries).redis, Key(queue, y.id)) <==> HasMessage(s, Key(queue, y.id))
      {
        RedeliverHasMessage(s, x, Key(queue, y.id), maxRetries);
      }
    }
  }

  /**
    A loop whose list of expired ids is out of date, because a consumer or another node's loop came in between,
    keeps a stored message sound exactly when the message is not back in the pending list, or cannot be found.
   */
  lemma RedeliverStaleIff(s: Redis, x: Key, d: nat, acked: bool, maxRetries: nat)
    requires Sound(s, x, d, acked, maxRetries) && HasMessage(s, x) && Alone(s, x)
    ensures Sound(Redeliver(s, x, maxRetries).redis, x, d, acked, maxRetries) <==> Queued(s, x) == 0 || ':' in x.queue
  {
    if ':' in x.queue { RedeliverColon(s, x, maxRetries); } else { RedeliverEffect(s, x, x, maxRetries); }
  }

  lemma {:induction false} SweepSound(s: Redis, expired: seq<Key>, j: Key, d: nat, acked: bool, maxRetries: nat)
    requires Distinct(expired) && forall x :: x in expired ==> Redeliverable(s, x)
    requires Sound(s, j, d, acked, maxRetries)
    ensures Sound(Sweep(s, expired, maxRetries).redis, j, d, acked, maxRetries)
    decreases |expired|
  {
    if expired != [] {
      var n := |expired| - 1;
      var before := Sweep(s, expired[..n], maxRetries);
      SweepSound(s, expired[..n], j, d, acked, maxRetries);
      if before.ok {
        SweepLeaves(s, expired[..n], expired[n], maxRetries);
        RedeliverSound(before.redis, expired[n], j, d, acked, maxRetries);
      }
    }
  }

  lemma {:induction false} SweepLeaves(s: Redis, expired: seq<Key>, y: Key, maxRetries: nat)
    requires Distinct(expired)
    requires (forall x :: x in expired ==> Redeliverable(s, x)) && Redeliverable(s, y) && y !in expired
    ensures Redeliverable(Sweep(s, expired, maxRetries).redis, y)
    decreases |expired|
  {
    if expired != [] {
      var n := |expired| - 1;
      assert forall x :: x in expired[..n] ==> x in expired;
      SweepLeaves(s, expired[..n], y, maxRetries);
      SweepLeaves(s, expired[..n], expired[n], maxRetries);
      if Sweep(s, expired[..n], maxRetries).ok {
        RedeliverOthers(Sweep(s, expired[..n], maxRetries).redis, expired[n], y, maxRetries);
      }
    }
  }

  lemma {:induction false} SweepHasMessage(s: Redis, expired: seq<Key>, k: Key, maxRetries: nat)
    ensures HasMessage(Sweep(s, expired, maxRetries).redis, k) <==> HasMessage(s, k)
    ensures k in Sweep(s, expired, maxRetries).redis.records <==> k in s.records
    decreases |expired|
  {
    if expired != [] {
      var n := |expired| - 1;
      SweepHasMessage(s, expired[..n], k, maxRetries);
      RedeliverHasMessage(Sweep(s, expired[..n], maxRetries).redis, expired[n], k, maxRetries);
    }
  }

  // ---- Runs ----

  lemma DoHasMessage(s: Redis, step: Step, maxRetries: nat, k: Key)
    ensures HasMessage(Do(s, step, maxRetries), k) <==> HasMessage(s, k) || step == Store(k)
  {
    if step.Recover? { SweepHasMessage(s, step.expired, k, maxRetries); }
  }

  lemma IdsStayApart(s: Redis, step: Step, maxRetries: nat)
    requires IdsApart(s) && Enabled(s, step)
    ensures IdsApart(Do(s, step, maxRetries))
  {
    forall k ensures Alone(Do(s, step, maxRetries), k) {
      assert Alone(s, k);
      DoHasMessage(s, step, maxRetries, k);
      forall queue
        ensures HasMessage(Do(s, step, maxRetries), Key(queue, k.id))
           <==> HasMessage(s, Key(queue, k.id)) || step == Store(Key(queue, k.id))
      {
        DoHasMessage(s, step, maxRetries, Key(queue, k.id));
      }
    }
  }

  lemma NoEmptyIdTaken(steps: seq<Step>, maxRetries: nat, queue: string)
    requires Inv(steps, maxRetries) && IdsApart(After(steps, maxRetries))
    ensures !TakesEmptyId(After(steps, maxRetries), queue)
  {
    var k := Key(queue, "");
    assert Sound(After(steps, maxRetries), k, Deliveries(steps, maxRetries, k), Ack(k) in steps, maxRetries);
    assert Alone(After(steps, maxRetries), k);
  }

  lemma ExpiredRedeliverable(steps: seq<Step>, now: real, expired: seq<Key>, maxRetries: nat)
    requires Inv(steps, maxRetries) && IdsApart(After(steps, maxRetries))
    requires IsExpired(After(steps, maxRetries), now, expired)
    ensures forall x :: x in expired ==> Redeliverable(After(steps, maxRetries), x)
  {
    forall x | x in expired ensures Redeliverable(After(steps, maxRetries), x) {
      assert Sound(After(steps, maxRetries), x, Deliveries(steps, maxRetries, x), Ack(x) in steps, maxRetries);
      assert Alone(After(steps, maxRetries), x);
    }
  }

  lemma StepKeeps(steps: seq<Step>, step: Step, maxRetries: nat)
    requires Inv(steps, maxRetries) && IdsApart(After(steps, maxRetries)) && Enabled(After(steps, maxRetries), step)
    ensures Inv(steps + [step], maxRetries) && IdsApart(After(steps + [step], maxRetries))
  {
    var s := After(steps, maxRetries);
    var more := steps + [step];
    assert more[..|more| - 1] == steps;
    IdsStayApart(s, step, maxRetries);
    forall j ensures Sound(After(more, maxRetries), j, Deliveries(more, maxRetries, j), Ack(j) in more, maxRetries) {
      StepSound(steps, step, maxRetries, j);
    }
  }

  lemma StepSound(steps: seq<Step>, step: Step, maxRetries: nat, j: Key)
    requires Inv(steps, maxRetries) && IdsApart(After(steps, maxRetries)) && Enabled(After(steps, maxRetries), step)
    ensures var s := After(steps, maxRetries);
      Sound(Do(s, step, maxRetries), j, Deliveries(steps, maxRetries, j) + (if Delivers(s, step, j) then 1 else 0),
            Ack(j) in steps || step == Ack(j), maxRetries)
  {
    var s, d, acked := After(steps, maxRetries), Deliveries(steps, maxRetries, j), Ack(j) in steps;
    assert Sound(s, j, d, acked, maxRetries);
    match step
    case Store(k) =>
      assert !HasMessage(s, Key(k.queue, k.id));
      if j == k { StoreSoundIff(s, k, d, acked, maxRetries); } else { StoreOthers(s, k, j, d, acked, maxRetries); }
    case Take(queue, _) =>
      NoEmptyIdTaken(steps, maxRetries, queue);
      TakeSound(s, step, j, d, acked, maxRetries);
    case Ack(k) => AckSound(s, k, j, d, acked, maxRetries);
    case Recover(now, expired) =>
      ExpiredRedeliverable(steps, now, expired, maxRetries);
      SweepSound(s, expired, j, d, acked, maxRetries);
  }

  lemma {:induction false} RunKeeps(steps: seq<Step>, maxRetries: nat)
    requires IsRun(steps, maxRetries)
    ensures Inv(steps, maxRetries) && IdsApart(After(steps, maxRetries))
    decreases |steps|
  {
    if steps != [] {
      var n := |steps| - 1;
      RunKeeps(steps[..n], maxRetries);
      StepKeeps(steps[..n], steps[n], maxRetries);
      assert steps[..n] + [steps[n]] == steps;
    }
  }
}
