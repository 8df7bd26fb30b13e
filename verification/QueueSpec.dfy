/** The queue's data in Redis, and what each queue operation does to it. */
module QueueSpec {
  datatype Status = Pending | InFlight | Completed | Failed

  /** A message's hash.  Acknowledging an id that has none creates one with a status and nothing else. */
  datatype Record = Full(status: Status, retryCount: nat) | StatusOnly(status: Status)

  datatype Key = Key(queue: string, id: string)

  /** The list, the sorted set (with its scores) and the message hashes of each queue. */
  datatype Redis = Redis(
    pending: map<string, seq<string>>,
    inFlight: map<string, map<string, real>>,
    records: map<Key, Record>)

  const NOTHING_STORED := Redis(map[], map[], map[])

  function PendingOf(s: Redis, queue: string): seq<string> {
    if queue in s.pending then s.pending[queue] else []
  }

  function InFlightOf(s: Redis, queue: string): map<string, real> {
    if queue in s.inFlight then s.inFlight[queue] else map[]
  }

  predicate IsInFlight(s: Redis, k: Key) {
    k.id in InFlightOf(s, k.queue)
  }

  predicate HasMessage(s: Redis, k: Key) {
    k in s.records && s.records[k].Full?
  }

  function Push(s: Redis, k: Key): Redis {
    s.(pending := s.pending[k.queue := [k.id] + PendingOf(s, k.queue)])
  }

  function SetRecord(s: Redis, k: Key, r: Record): Redis {
    s.(records := s.records[k := r])
  }

  function Land(s: Redis, k: Key): Redis {
    s.(inFlight := s.inFlight[k.queue := InFlightOf(s, k.queue) - {k.id}])
  }

  function StoreMessage(s: Redis, k: Key): Redis {
    Push(SetRecord(s, k, Full(Pending, 0)), k)
  }

  /**
    A call to produce stores the message itself when it belongs to this node; otherwise the owner stores it if the
    forwarded request arrived, and this node stores it as well if no answer came back.
   */
  function Produced(s: Redis, k: Key, local: bool, arrived: bool, answered: bool): Redis {
    if local then StoreMessage(s, k)
    else
      var forwarded := if arrived then StoreMessage(s, k) else s;
      if answered then forwarded else StoreMessage(forwarded, k)
  }

  /** `TypeError`: the hash read back lacks the fields of a message. */
  datatype Outcome = Empty | Delivered(id: string) | TypeError

  function Consume(s: Redis, queue: string, deadline: real): (Redis, Outcome) {
    var p := PendingOf(s, queue);
    if p == [] then (s, Empty)
    else
      var id := p[|p| - 1];
      var k := Key(queue, id);
      var popped := s.(pending := s.pending[queue := p[..|p| - 1]]);
      if id == "" || k !in s.records then (popped, Empty)
      else if s.records[k].StatusOnly? then (popped, TypeError)
      else
        (SetRecord(popped, k, s.records[k].(status := InFlight)).(
          inFlight := s.inFlight[queue := InFlightOf(s, queue)[id := deadline]]), Delivered(id))
  }

  function Acknowledge(s: Redis, k: Key): Redis {
    Land(SetRecord(s, k, if k in s.records then s.records[k].(status := Completed) else StatusOnly(Completed)), k)
  }

  // ---- Redelivery ----

  function InFlightKey(queue: string): string {
    "queue:" + queue + ":in_flight"
  }

  function UpToColon(s: string): string {
    if s == "" || s[0] == ':' then "" else [s[0]] + UpToColon(s[1..])
  }

  function AfterColon(s: string): string {
    if s == "" then "" else if s[0] == ':' then s[1..] else AfterColon(s[1..])
  }

  /** The second field of a key, split at its colons. */
  function QueueOf(key: string): string {
    UpToColon(AfterColon(key))
  }

  datatype Swept = Swept(redis: Redis, ok: bool)

  /** One expired id; it is not asked again whether the id is still in flight. */
  function Redeliver(s: Redis, x: Key, maxRetries: nat): Swept {
    var k := Key(QueueOf(InFlightKey(x.queue)), x.id);
    if k !in s.records then Swept(s, true)
    else match s.records[k]
      case StatusOnly(_) => Swept(s, false)
      case Full(_, retryCount) =>
        if retryCount >= maxRetries then Swept(Land(SetRecord(s, k, Full(Failed, retryCount)), x), true)
        else Swept(Push(Land(SetRecord(s, k, Full(Pending, retryCount + 1)), x), k), true)
  }

  /** The expired ids in turn, up to the first that raises. */
  function Sweep(s: Redis, expired: seq<Key>, maxRetries: nat): Swept
    decreases |expired|
  {
    if expired == [] then Swept(s, true)
    else
      var n := |expired| - 1;
      var before := Sweep(s, expired[..n], maxRetries);
      if before.ok then Redeliver(before.redis, expired[n], maxRetries) else before
  }

  lemma {:induction false} SweepAppend(s: Redis, a: seq<Key>, b: seq<Key>, maxRetries: nat)
    ensures var first := Sweep(s, a, maxRetries);
      Sweep(s, a + b, maxRetries) == if first.ok then Sweep(first.redis, b, maxRetries) else first
    decreases |b|
  {
    if b == [] {
      assert a + b == a;
    } else {
      var n := |b| - 1;
      SweepAppend(s, a, b[..n], maxRetries);
      assert (a + b)[..|a| + n] == a + b[..n];
    }
  }

  /** The ids of one queue, then those of the next. */
  function Listing(queues: seq<string>, expired: map<string, seq<string>>): seq<Key>
    decreases |queues|
  {
    if queues == [] then []
    else
      var n := |queues| - 1;
      Listing(queues[..n], expired) + KeysOf(queues[n], IdsOf(queues[n], expired))
  }

  function KeysOf(queue: string, ids: seq<string>): seq<Key>
    decreases |ids|
  {
    if ids == [] then [] else KeysOf(queue, ids[..|ids| - 1]) + [Key(queue, ids[|ids| - 1])]
  }

  function IdsOf(queue: string, expired: map<string, seq<string>>): seq<string> {
    if queue in expired then expired[queue] else []
  }

  lemma {:induction false} ListingSplit(queues: seq<string>, expired: map<string, seq<string>>, i: nat)
    returns (rest: seq<Key>)
    requires i <= |queues|
    ensures Listing(queues, expired) == Listing(queues[..i], expired) + rest
    decreases |queues|
  {
    if i == |queues| {
      assert queues[..i] == queues;
      rest := [];
    } else {
      var n := |queues| - 1;
      rest := ListingSplit(queues[..n], expired, i);
      assert queues[..n][..i] == queues[..i];
      rest := rest + KeysOf(queues[n], IdsOf(queues[n], expired));
    }
  }

  lemma {:induction false} KeysOfSplit(queue: string, ids: seq<string>, j: nat)
    requires j < |ids|
    ensures KeysOf(queue, ids[..j + 1]) == KeysOf(queue, ids[..j]) + [Key(queue, ids[j])]
    ensures KeysOf(queue, ids) == KeysOf(queue, ids[..j + 1]) + KeysOf(queue, ids[j + 1..])
    decreases |ids|
  {
    assert ids[..j + 1][..j] == ids[..j];
    if j + 1 == |ids| {
      assert ids[..j + 1] == ids;
    } else {
      var n := |ids| - 1;
      KeysOfSplit(queue, ids[..n], j);
      assert ids[..n][..j + 1] == ids[..j + 1] && ids[..n][j + 1..] == ids[j + 1..][..n - j - 1];
    }
  }
}
