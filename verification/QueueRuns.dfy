/** What producers and consumers can rely on, over plain runs of the queue. */
module QueueRuns {
  import opened QueueSpec
  import opened Sequences
  import opened QueueSafety

  /** A message once stored keeps its record. */
  lemma {:induction false} StoredForGood(steps: seq<Step>, maxRetries: nat, k: Key)
    ensures HasMessage(After(steps, maxRetries), k) <==> Store(k) in steps
    decreases |steps|
  {
    if steps != [] {
      var n := |steps| - 1;
      StoredForGood(steps[..n], maxRetries, k);
      assert steps == steps[..n] + [steps[n]];
      DoHasMessage(After(steps[..n], maxRetries), steps[n], maxRetries, k);
    }
  }

  /**
    Every message stored is in exactly one place: pending, in flight, or settled, which means acknowledged or failed
    after all its deliveries.  Deliveries are counted exactly by the retries, and are bounded.
   */
  lemma MessageConserved(steps: seq<Step>, maxRetries: nat, k: Key)
    requires IsRun(steps, maxRetries) && Store(k) in steps
    ensures var s, d := After(steps, maxRetries), Deliveries(steps, maxRetries, k);
      && HasMessage(s, k)
      && Queued(s, k) + (if IsInFlight(s, k) then 1 else 0) <= 1
      && d == s.records[k].retryCount + (if Queued(s, k) > 0 then 0 else 1)
      && d <= maxRetries + 1
      && (Queued(s, k) == 0 && !IsInFlight(s, k) ==>
            (s.records[k].status == Completed && Ack(k) in steps)
            || (s.records[k].status == Failed && d == maxRetries + 1))
  {
    RunKeeps(steps, maxRetries);
    StoredForGood(steps, maxRetries, k);
    assert Sound(After(steps, maxRetries), k, Deliveries(steps, maxRetries, k), Ack(k) in steps, maxRetries);
  }

  /** A list with an id in it delivers a message: no operation finds a broken record or loses an id. */
  lemma ConsumeDelivers(steps: seq<Step>, maxRetries: nat, queue: string, deadline: real)
    requires IsRun(steps, maxRetries) && PendingOf(After(steps, maxRetries), queue) != []
    ensures Consume(After(steps, maxRetries), queue, deadline).1.Delivered?
  {
    var s := After(steps, maxRetries);
    var p := PendingOf(s, queue);
    var k := Key(queue, p[|p| - 1]);
    RunKeeps(steps, maxRetries);
    NoEmptyIdTaken(steps, maxRetries, queue);
    assert Sound(s, k, Deliveries(steps, maxRetries, k), Ack(k) in steps, maxRetries);
  }

  /** The message's record is looked for in the wrong queue, and there is one there. */
  predicate Misread(s: Redis, x: Key) {
    ':' in x.queue && Key(QueueOf(InFlightKey(x.queue)), x.id) in s.records
  }

  lemma {:induction false} SweepOkIff(s: Redis, expired: seq<Key>, maxRetries: nat)
    requires Distinct(expired) && forall x :: x in expired ==> Redeliverable(s, x)
    ensures Sweep(s, expired, maxRetries).ok <==> forall x :: x in expired ==> !Misread(s, x)
    decreases |expired|
  {
    if expired != [] {
      var n := |expired| - 1;
      var x, before := expired[n], Sweep(s, expired[..n], maxRetries);
      SweepOkIff(s, expired[..n], maxRetries);
      assert forall y :: y in expired <==> y in expired[..n] || y == x;
      if before.ok {
        SweepLeaves(s, expired[..n], x, maxRetries);
        SweepHasMessage(s, expired[..n], Key(QueueOf(InFlightKey(x.queue)), x.id), maxRetries);
        RedeliverOkIff(before.redis, x, maxRetries);
      }
    }
  }

  lemma RedeliverOkIff(s: Redis, x: Key, maxRetries: nat)
    requires Redeliverable(s, x)
    ensures Redeliver(s, x, maxRetries).ok <==> !Misread(s, x)
  {
    QueueOfIff(x.queue);
    var k := Key(QueueOf(InFlightKey(x.queue)), x.id);
    if ':' in x.queue { assert !HasMessage(s, k); }
  }

  /** In any run, a sweep gets to its end if and only if it misreads none of the expired ids. */
  lemma SweepEndsIff(steps: seq<Step>, maxRetries: nat, now: real, expired: seq<Key>)
    requires IsRun(steps, maxRetries) && IsExpired(After(steps, maxRetries), now, expired)
    ensures Sweep(After(steps, maxRetries), expired, maxRetries).ok
       <==> forall x :: x in expired ==> !Misread(After(steps, maxRetries), x)
  {
    RunKeeps(steps, maxRetries);
    ExpiredRedeliverable(steps, now, expired, maxRetries);
    SweepOkIff(After(steps, maxRetries), expired, maxRetries);
  }

  // ---- What Redis answers the redelivery loop ----

  /** The queues with ids in flight, and for each its expired ids, nothing twice and in any order. */
  ghost predicate Answers(s: Redis, now: real, queues: seq<string>, expired: map<string, seq<string>>) {
    && Distinct(queues)
    && (forall q :: q in queues <==> InFlightOf(s, q) != map[])
    && (forall q :: q in queues ==> Distinct(IdsOf(q, expired)))
    && (forall q, id :: q in queues ==>
          (id in IdsOf(q, expired) <==> id in InFlightOf(s, q) && InFlightOf(s, q)[id] <= now))
  }

  lemma {:induction false} KeysOfAt(queue: string, ids: seq<string>)
    ensures |KeysOf(queue, ids)| == |ids|
    ensures forall i :: 0 <= i < |ids| ==> KeysOf(queue, ids)[i] == Key(queue, ids[i])
    decreases |ids|
  {
    if ids != [] { KeysOfAt(queue, ids[..|ids| - 1]); }
  }

  lemma {:induction false} ListingMembers(queues: seq<string>, expired: map<string, seq<string>>, k: Key)
    ensures k in Listing(queues, expired) <==> k.queue in queues && k.id in IdsOf(k.queue, expired)
    decreases |queues|
  {
    if queues != [] {
      var n := |queues| - 1;
      var ids := IdsOf(queues[n], expired);
      ListingMembers(queues[..n], expired, k);
      KeysOfAt(queues[n], ids);
      assert k in KeysOf(queues[n], ids) <==> k.queue == queues[n] && k.id in ids by {
        if k.queue == queues[n] && k.id in ids {
          var i :| 0 <= i < |ids| && ids[i] == k.id;
          assert KeysOf(queues[n], ids)[i] == k;
        }
      }
      assert queues == queues[..n] + [queues[n]];
    }
  }

  lemma {:induction false} ListingDistinct(queues: seq<string>, expired: map<string, seq<string>>)
    requires Distinct(queues)
    requires forall q :: q in queues ==> Distinct(IdsOf(q, expired))
    ensures Distinct(Listing(queues, expired))
    decreases |queues|
  {
    if queues != [] {
      var n := |queues| - 1;
      var first, last := Listing(queues[..n], expired), KeysOf(queues[n], IdsOf(queues[n], expired));
      ListingDistinct(queues[..n], expired);
      KeysOfAt(queues[n], IdsOf(queues[n], expired));
      forall i, j | 0 <= i < |first| && 0 <= j < |last| ensures first[i] != last[j] {
        ListingMembers(queues[..n], expired, first[i]);
      }
    }
  }

  /** One call of the redelivery loop is a `Recover` step. */
  lemma AnswersAreExpired(s: Redis, now: real, queues: seq<string>, expired: map<string, seq<string>>)
    requires Answers(s, now, queues, expired)
    ensures IsExpired(s, now, Listing(queues, expired))
  {
    ListingDistinct(queues, expired);
    forall k ensures k in Listing(queues, expired) <==> IsInFlight(s, k) && InFlightOf(s, k.queue)[k.id] <= now {
      ListingMembers(queues, expired, k);
    }
  }

  /** What the sweep leaves of one message: expired ones are pending again or have failed, others are untouched. */
  ghost predicate Recovered(s: Redis, t: Redis, y: Key, expired: bool, maxRetries: nat) {
    if expired then
      && HasMessage(s, y) && y in t.records && !IsInFlight(t, y)
      && var r := s.records[y];
         if r.retryCount < maxRetries
         then t.records[y] == Full(Pending, r.retryCount + 1) && Queued(t, y) == 1
         else t.records[y] == Full(Failed, r.retryCount) && Queued(t, y) == 0
    else
      && (y in t.records <==> y in s.records) && (y in s.records ==> t.records[y] == s.records[y])
      && Queued(t, y) == Queued(s, y) && (IsInFlight(t, y) <==> IsInFlight(s, y))
  }

  lemma {:induction false} SweepRecovers(s: Redis, expired: seq<Key>, y: Key, maxRetries: nat)
    requires Distinct(expired)
    requires forall x :: x in expired ==> Redeliverable(s, x)
    ensures var t := Sweep(s, expired, maxRetries);
      t.ok ==> Recovered(s, t.redis, y, y in expired && ':' !in y.queue, maxRetries)
    decreases |expired|
  {
    if expired != [] {
      var n := |expired| - 1;
      var x, b := expired[n], Sweep(s, expired[..n], maxRetries);
      assert y in expired <==> y in expired[..n] || y == x;
      SweepRecovers(s, expired[..n], y, maxRetries);
      if b.ok {
        SweepLeaves(s, expired[..n], x, maxRetries);
        SweepRecovers(s, expired[..n], x, maxRetries);
        RedeliverRecovers(s, b.redis, x, y, y in expired[..n] && ':' !in y.queue, maxRetries);
      }
    }
  }

  lemma RedeliverRecovers(s: Redis, b: Redis, x: Key, y: Key, before: bool, maxRetries: nat)
    requires Recovered(s, b, x, false, maxRetries) && Recovered(s, b, y, before, maxRetries)
    requires Redeliverable(s, x) && Redeliverable(b, x) && (y == x ==> !before)
    ensures Recovered(s, Redeliver(b, x, maxRetries).redis, y, before || (y == x && ':' !in x.queue), maxRetries)
  {
    if ':' in x.queue { RedeliverColon(b, x, maxRetries); } else { RedeliverEffect(b, x, y, maxRetries); }
  }

  /**
    At least once: in any run, a message whose deadline passed is redelivered, or failed once its retries are used up,
    if its queue's name has no colon and the sweep gets to its end.
   */
  lemma ExpiredRecovered(steps: seq<Step>, maxRetries: nat, now: real, expired: seq<Key>, y: Key)
    requires IsRun(steps, maxRetries) && IsExpired(After(steps, maxRetries), now, expired)
    ensures var s := After(steps, maxRetries);
      (forall x :: x in expired ==> !Misread(s, x)) ==>
        Recovered(s, After(steps + [Recover(now, expired)], maxRetries), y, y in expired && ':' !in y.queue, maxRetries)
  {
    RunKeeps(steps, maxRetries);
    ExpiredRedeliverable(steps, now, expired, maxRetries);
    SweepRecovers(After(steps, maxRetries), expired, y, maxRetries);
    SweepOkIff(After(steps, maxRetries), expired, maxRetries);
    AfterMore(steps, Recover(now, expired), maxRetries, y);
  }

  // ---- Queues that redelivery cannot find ----

  lemma RunOfMore(steps: seq<Step>, step: Step, maxRetries: nat)
    requires IsRun(steps, maxRetries) && Enabled(After(steps, maxRetries), step)
    ensures IsRun(steps + [step], maxRetries)
    ensures After(steps + [step], maxRetries) == Do(After(steps, maxRetries), step, maxRetries)
  {
    assert (steps + [step])[..|steps|] == steps;
  }

  function Taken(k: Key, deadline: real): seq<Step> {
    [Store(k), Take(k.queue, deadline)]
  }

  /** One message, and it is in flight. */
  ghost predicate OnlyTaken(s: Redis, k: Key, deadline: real) {
    s == Redis(map[k.queue := []], map[k.queue := map[k.id := deadline]], map[k := Full(InFlight, 0)])
  }

  /** The state after one message is stored and taken. */
  lemma TakenState(k: Key, deadline: real, maxRetries: nat)
    requires k.id != ""
    ensures IsRun(Taken(k, deadline), maxRetries)
    ensures OnlyTaken(After(Taken(k, deadline), maxRetries), k, deadline)
  {
    RunOfMore([], Store(k), maxRetries);
    RunOfMore([Store(k)], Take(k.queue, deadline), maxRetries);
    assert [] + [Store(k)] == [Store(k)] && [Store(k)] + [Take(k.queue, deadline)] == Taken(k, deadline);
    var stored := StoreMessage(NOTHING_STORED, k);
    assert After([], maxRetries) == NOTHING_STORED && stored.records == map[k := Full(Pending, 0)];
    assert PendingOf(stored, k.queue) == [k.id] && stored.pending == map[k.queue := [k.id]];
  }

  function Sweeps(now: real, k: Key, n: nat): seq<Step> {
    if n == 0 then [] else Sweeps(now, k, n - 1) + [Recover(now, [k])]
  }

  lemma TakenExpired(s: Redis, k: Key, deadline: real, now: real)
    requires OnlyTaken(s, k, deadline) && k.id != "" && deadline <= now
    ensures IsExpired(s, now, [k]) && IsInFlight(s, k) && HasMessage(s, k) && Alone(s, k)
  {
  }

  lemma SweepOfOne(s: Redis, k: Key, maxRetries: nat)
    ensures Sweep(s, [k], maxRetries) == Redeliver(s, k, maxRetries)
  {
    assert [k][..0] == [];
  }

  /** However often the loop comes round after the deadline, the message stays in flight. */
  lemma {:induction false} NeverRecovered(k: Key, deadline: real, now: real, maxRetries: nat, n: nat)
    requires k.id != "" && ':' in k.queue && deadline <= now
    ensures var steps := Taken(k, deadline) + Sweeps(now, k, n);
      IsRun(steps, maxRetries) && OnlyTaken(After(steps, maxRetries), k, deadline)
    decreases n
  {
    TakenState(k, deadline, maxRetries);
    if n == 0 {
      assert Taken(k, deadline) + Sweeps(now, k, 0) == Taken(k, deadline);
    } else {
      NeverRecovered(k, deadline, now, maxRetries, n - 1);
      var steps, sweep := Taken(k, deadline) + Sweeps(now, k, n - 1), Recover(now, [k]);
      var s := After(steps, maxRetries);
      TakenExpired(s, k, deadline, now);
      RunOfMore(steps, sweep, maxRetries);
      SweepOfOne(s, k, maxRetries);
      RedeliverColon(s, k, maxRetries);
      assert steps + [sweep] == Taken(k, deadline) + Sweeps(now, k, n);
    }
  }

  /** A queue called "a:b": its one message is past its deadline, and no number of sweeps brings it back. */
  lemma ColonQueueStuck(n: nat)
    ensures var k := Key("a:b", "m"); var steps := Taken(k, 1.0) + Sweeps(2.0, k, n);
      IsRun(steps, 3) && IsInFlight(After(steps, 3), k) && IsExpired(After(steps, 3), 2.0, [k])
  {
    var k := Key("a:b", "m");
    NeverRecovered(k, 1.0, 2.0, 3, n);
    TakenExpired(After(Taken(k, 1.0) + Sweeps(2.0, k, n), 3), k, 1.0, 2.0);
  }

  /** An acknowledgement under the queue name "a" leaves a record there that stops every sweep of "a:b". */
  lemma MisdirectedAckStopsSweep()
    ensures var k := Key("a:b", "m"); var steps := Taken(k, 1.0) + [Ack(Key("a", "m"))];
      && IsRun(steps, 3) && IsExpired(After(steps, 3), 2.0, [k])
      && !Sweep(After(steps, 3), [k], 3).ok
  {
    var k := Key("a:b", "m");
    var ack := Ack(Key("a", "m"));
    TakenState(k, 1.0, 3);
    RunOfMore(Taken(k, 1.0), ack, 3);
    var s := After(Taken(k, 1.0) + [ack], 3);
    AckElsewhere(After(Taken(k, 1.0), 3), k, 1.0, Key("a", "m"), 2.0);
    QueueOfAB();
    SweepOfOne(s, k, 3);
    RedeliverOkIff(s, k, 3);
  }

  lemma AckElsewhere(s: Redis, k: Key, deadline: real, other: Key, now: real)
    requires OnlyTaken(s, k, deadline) && k.id != "" && deadline <= now && other.queue != k.queue && other.id == k.id
    ensures var t := Acknowledge(s, other);
      IsExpired(t, now, [k]) && Redeliverable(t, k) && other in t.records
  {
    var t := Acknowledge(s, other);
    assert t.records == map[k := Full(InFlight, 0), other := StatusOnly(Completed)];
    assert t.pending == s.pending && InFlightOf(t, k.queue) == map[k.id := deadline];
    assert InFlightOf(t, other.queue) == map[];
  }

  lemma QueueOfAB()
    ensures QueueOf(InFlightKey("a:b")) == "a"
  {
    var rest := "a:b:in_flight";
    assert InFlightKey("a:b") == "queue" + ":" + rest;
    AfterFirstColon("queue", rest);
    assert rest == "a" + ":" + "b:in_flight";
    BeforeColon("a", "b:in_flight");
  }

  /** Two loops that were both told of one expired id push it twice. */
  lemma TwoLoopsDuplicate(k: Key, deadline: real, maxRetries: nat)
    requires k.id != "" && ':' !in k.queue && maxRetries >= 2
    ensures var s := After(Taken(k, deadline), maxRetries);
      var first := Redeliver(s, k, maxRetries);
      && IsRun(Taken(k, deadline), maxRetries) && IsInFlight(s, k)
      && Queued(first.redis, k) == 1 && Queued(Redeliver(first.redis, k, maxRetries).redis, k) == 2
  {
    var s := After(Taken(k, deadline), maxRetries);
    TakenState(k, deadline, maxRetries);
    RedeliverEffect(s, k, k, maxRetries);
    RedeliverEffect(Redeliver(s, k, maxRetries).redis, k, k, maxRetries);
  }

  // ---- Storing twice ----

  /** Storing keeps all messages sound if and only if this one was never stored before, under any id and queue name. */
  lemma StoreKeepsIff(steps: seq<Step>, maxRetries: nat, k: Key)
    requires Inv(steps, maxRetries)
    ensures Inv(steps + [Store(k)], maxRetries) <==> !HasMessage(After(steps, maxRetries), k)
  {
    var s, more := After(steps, maxRetries), steps + [Store(k)];
    AfterMore(steps, Store(k), maxRetries, k);
    forall j
      ensures Sound(After(more, maxRetries), j, Deliveries(more, maxRetries, j), Ack(j) in more, maxRetries)
         <==> j != k || !HasMessage(s, k)
    {
      var d, acked := Deliveries(steps, maxRetries, j), Ack(j) in steps;
      assert Sound(s, j, d, acked, maxRetries);
      AfterMore(steps, Store(k), maxRetries, j);
      if j == k { StoreSoundIff(s, k, d, acked, maxRetries); } else { StoreOthers(s, k, j, d, acked, maxRetries); }
    }
  }

  /** Consuming keeps all messages sound if and only if it does not take an empty id, which is dropped undelivered. */
  lemma TakeKeepsIff(steps: seq<Step>, maxRetries: nat, queue: string, deadline: real)
    requires Inv(steps, maxRetries)
    ensures Inv(steps + [Take(queue, deadline)], maxRetries) <==> !TakesEmptyId(After(steps, maxRetries), queue)
  {
    var s, take := After(steps, maxRetries), Take(queue, deadline);
    var more := steps + [take];
    if TakesEmptyId(s, queue) {
      var k := Key(queue, "");
      AfterMore(steps, take, maxRetries, k);
      assert Sound(s, k, Deliveries(steps, maxRetries, k), Ack(k) in steps, maxRetries);
      TakeLosesEmptyId(s, take, Deliveries(steps, maxRetries, k), Ack(k) in steps, maxRetries);
      assert !Sound(After(more, maxRetries), k, Deliveries(more, maxRetries, k), Ack(k) in more, maxRetries);
    } else {
      forall j ensures Sound(After(more, maxRetries), j, Deliveries(more, maxRetries, j), Ack(j) in more, maxRetries) {
        AfterMore(steps, take, maxRetries, j);
        assert Sound(s, j, Deliveries(steps, maxRetries, j), Ack(j) in steps, maxRetries);
        TakeSound(s, take, j, Deliveries(steps, maxRetries, j), Ack(j) in steps, maxRetries);
      }
    }
  }

  /** The stores behind one call to produce. */
  function ProduceSteps(k: Key, local: bool, arrived: bool, answered: bool): seq<Step> {
    if local then [Store(k)]
    else (if arrived then [Store(k)] else []) + (if answered then [] else [Store(k)])
  }

  lemma ProduceRuns(steps: seq<Step>, maxRetries: nat, k: Key, local: bool, arrived: bool, answered: bool)
    ensures After(steps + ProduceSteps(k, local, arrived, answered), maxRetries)
         == Produced(After(steps, maxRetries), k, local, arrived, answered)
  {
    var more := ProduceSteps(k, local, arrived, answered);
    if more == [] {
      assert steps + more == steps;
    } else {
      AfterMore(steps, Store(k), maxRetries, k);
      if |more| == 2 {
        AfterMore(steps + [Store(k)], Store(k), maxRetries, k);
        assert steps + more == steps + [Store(k)] + [Store(k)];
      } else {
        assert more == [Store(k)];
      }
    }
  }

  /** Produce stores the message once, as it should, unless the request arrived and only its answer was lost. */
  lemma ProduceKeepsIff(steps: seq<Step>, maxRetries: nat, k: Key, local: bool, arrived: bool, answered: bool)
    requires Inv(steps, maxRetries) && !HasMessage(After(steps, maxRetries), k) && (answered ==> arrived)
    ensures Inv(steps + ProduceSteps(k, local, arrived, answered), maxRetries) <==> local || !arrived || answered
  {
    var once := steps + [Store(k)];
    StoreKeepsIff(steps, maxRetries, k);
    if !local && arrived && !answered {
      assert once[..|once| - 1] == steps;
      assert steps + ProduceSteps(k, local, arrived, answered) == once + [Store(k)];
      StoreKeepsIff(once, maxRetries, k);
    } else {
      assert ProduceSteps(k, local, arrived, answered) == [Store(k)];
    }
  }

  /** A message stored by its owner and again by the fallback is handed out twice though nobody was late. */
  lemma FallbackDeliversTwice(k: Key, deadline: real, maxRetries: nat)
    requires k.id != ""
    ensures Deliveries(ProduceSteps(k, false, true, false) + [Take(k.queue, deadline), Take(k.queue, deadline)],
        maxRetries, k) == 2
  {
    var take := Take(k.queue, deadline);
    var stored := ProduceSteps(k, false, true, false);
    AfterMore([], Store(k), maxRetries, k);
    AfterMore([Store(k)], Store(k), maxRetries, k);
    assert [] + [Store(k)] == [Store(k)] && [Store(k)] + [Store(k)] == stored;
    assert PendingOf(After(stored, maxRetries), k.queue) == [k.id, k.id];
    AfterMore(stored, take, maxRetries, k);
    AfterMore(stored + [take], take, maxRetries, k);
    assert stored + [take] + [take] == stored + [take, take];
  }

  lemma AfterMore(steps: seq<Step>, step: Step, maxRetries: nat, k: Key)
    ensures After(steps + [step], maxRetries) == Do(After(steps, maxRetries), step, maxRetries)
    ensures Deliveries(steps + [step], maxRetries, k)
         == Deliveries(steps, maxRetries, k) + if Delivers(After(steps, maxRetries), step, k) then 1 else 0
  {
    assert (steps + [step])[..|steps|] == steps;
  }

  // ---- First deliveries come in store order ----

  ghost predicate StoredBefore(steps: seq<Step>, a: Key, b: Key) {
    exists i, j :: 0 <= i < j < |steps| && steps[i] == Store(a) && steps[j] == Store(b)
  }

  /** Every occurrence of x is nearer than any of y to the end that consumers take from. */
  ghost predicate Nearer(p: seq<string>, x: string, y: string) {
    forall i, j {:trigger p[i], p[j]} :: 0 <= i < |p| && 0 <= j < |p| && p[i] == x && p[j] == y ==> j < i
  }

  /** While a has not been handed out, b has not either, and waits behind it. */
  ghost predicate InOrder(s: Redis, a: Key, da: nat, b: Key, db: nat) {
    da == 0 ==> db == 0 && Nearer(PendingOf(s, a.queue), a.id, b.id)
  }

  lemma NearerPush(p: seq<string>, z: string, x: string, y: string)
    requires Nearer(p, x, y) && z != x
    ensures Nearer([z] + p, x, y)
  {
    var q := [z] + p;
    forall i, j | 0 <= i < |q| && 0 <= j < |q| && q[i] == x && q[j] == y ensures j < i {
      assert i > 0 && p[i - 1] == x;
      if j > 0 { assert p[j - 1] == y; }
    }
  }

  lemma {:induction false} SweepNearer(s: Redis, expired: seq<Key>, a: Key, y: string, maxRetries: nat)
    requires Nearer(PendingOf(s, a.queue), a.id, y) && a !in expired
    requires Distinct(expired) && forall x :: x in expired ==> Redeliverable(s, x)
    ensures Nearer(PendingOf(Sweep(s, expired, maxRetries).redis, a.queue), a.id, y)
    decreases |expired|
  {
    if expired != [] {
      var n := |expired| - 1;
      var x, before := expired[n], Sweep(s, expired[..n], maxRetries);
      SweepNearer(s, expired[..n], a, y, maxRetries);
      if before.ok {
        SweepLeaves(s, expired[..n], x, maxRetries);
        RedeliverNearer(before.redis, x, a, y, maxRetries);
      }
    }
  }

  lemma RedeliverNearer(s: Redis, x: Key, a: Key, y: string, maxRetries: nat)
    requires Nearer(PendingOf(s, a.queue), a.id, y) && a != x && Redeliverable(s, x)
    ensures Nearer(PendingOf(Redeliver(s, x, maxRetries).redis, a.queue), a.id, y)
  {
    if ':' in x.queue {
      RedeliverColon(s, x, maxRetries);
    } else {
      QueueOfIff(x.queue);
      if x.queue == a.queue { NearerPush(PendingOf(s, a.queue), x.id, a.id, y); }
    }
  }

  lemma TakeInOrder(s: Redis, step: Step, a: Key, da: nat, b: Key, db: nat)
    requires step.Take? && InOrder(s, a, da, b, db) && a.queue == b.queue && a != b
    requires da == 0 ==> Queued(s, a) > 0
    ensures InOrder(Do(s, step, 0), a, da + (if Delivers(s, step, a) then 1 else 0),
      b, db + (if Delivers(s, step, b) then 1 else 0))
  {
    var p := PendingOf(s, a.queue);
    if da == 0 && step.queue == a.queue {
      var i :| 0 <= i < |p| && p[i] == a.id;
      assert Nearer(p[..|p| - 1], a.id, b.id);
    }
  }

  lemma StepInOrder(steps: seq<Step>, step: Step, maxRetries: nat, a: Key, b: Key)
    requires Inv(steps, maxRetries) && IdsApart(After(steps, maxRetries)) && Enabled(After(steps, maxRetries), step)
    requires a.queue == b.queue && a != b && HasMessage(After(steps, maxRetries), a)
    requires InOrder(After(steps, maxRetries), a, Deliveries(steps, maxRetries, a), b, Deliveries(steps, maxRetries, b))
    ensures var more := steps + [step];
      InOrder(After(more, maxRetries), a, Deliveries(more, maxRetries, a), b, Deliveries(more, maxRetries, b))
  {
    var s, p := After(steps, maxRetries), PendingOf(After(steps, maxRetries), a.queue);
    var more := steps + [step];
    assert more[..|more| - 1] == steps;
    assert Sound(s, a, Deliveries(steps, maxRetries, a), Ack(a) in steps, maxRetries);
    match step
    case Store(k) => if k.queue == a.queue && Nearer(p, a.id, b.id) { NearerPush(p, k.id, a.id, b.id); }
    case Take(_, _) => TakeInOrder(s, step, a, Deliveries(steps, maxRetries, a), b, Deliveries(steps, maxRetries, b));
    case Ack(_) =>
    case Recover(now, expired) =>
      ExpiredRedeliverable(steps, now, expired, maxRetries);
      if Deliveries(steps, maxRetries, a) == 0 { SweepNearer(s, expired, a, b.id, maxRetries); }
  }

  /** Of two messages of a queue, the one stored first is handed out first, whatever is redelivered in between. */
  lemma {:induction false} FirstDeliveriesInOrder(steps: seq<Step>, maxRetries: nat, a: Key, b: Key)
    requires IsRun(steps, maxRetries) && StoredBefore(steps, a, b) && a.queue == b.queue
    ensures Deliveries(steps, maxRetries, b) > 0 ==> Deliveries(steps, maxRetries, a) > 0
    ensures a != b && InOrder(
        After(steps, maxRetries), a, Deliveries(steps, maxRetries, a), b, Deliveries(steps, maxRetries, b))
    decreases |steps|
  {
    var n := |steps| - 1;
    var before, s := steps[..n], After(steps[..n], maxRetries);
    var i, j :| 0 <= i < j < |steps| && steps[i] == Store(a) && steps[j] == Store(b);
    assert steps == before + [steps[n]];
    assert before[i] == Store(a);
    RunKeeps(before, maxRetries);
    StoredForGood(before, maxRetries, a);
    if j < n {
      assert before[j] == Store(b);
      FirstDeliveriesInOrder(before, maxRetries, a, b);
    } else {
      assert Sound(s, b, Deliveries(before, maxRetries, b), Ack(b) in before, maxRetries);
    }
    StepInOrder(before, steps[n], maxRetries, a, b);
  }
}
