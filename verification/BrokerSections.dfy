/** What each lock-held section of broker.go does to the fields the mutex
    protects, as pure functions. The transition system in BrokerRuns takes
    these as atomic steps and the class in Broker implements them. */
module BrokerSections {
  import opened Types

  type Queues = map<Channel, seq<Payload>>
  type CallId = nat

  /** A blocked consumer. `id` stands for the identity of the waiter pointer:
      the pop call that created it. */
  datatype Waiter = Waiter(id: CallId, channels: seq<Channel>)

  /** The mutex-protected state. `closes[k]` counts how often the k-th drain
      signal was closed; the last one is the current `drainSignal`. */
  datatype Shared = Shared(queues: Queues, waiters: seq<Waiter>, queuedBytes: int, closes: seq<nat>)

  const EMPTY_BROKER := Shared(map[], [], 0, [0])

  datatype PushOutcome = HandedTo(to: CallId) | Appended | MustWait(signal: nat)
  datatype PopOutcome = Took(delivery: Delivery) | GaveUp | Registered

  function QueueOf(q: Queues, c: Channel): seq<Payload> {
    if c in q then q[c] else []
  }

  /** The queue map holds no empty queue: storing one deletes the key. */
  function SetQueue(q: Queues, c: Channel, s: seq<Payload>): Queues {
    if s == [] then q - {c} else q[c := s]
  }

  /** Index of the first waiter that wants `c`, or the length. */
  function FirstMatch(ws: seq<Waiter>, c: Channel): (k: nat)
    ensures k <= |ws|
    ensures k < |ws| ==> c in ws[k].channels
    ensures forall j | 0 <= j < k :: c !in ws[j].channels
  {
    if ws == [] then 0
    else if c in ws[0].channels then 0
    else
      var k := FirstMatch(ws[1..], c);
      assert forall j | 1 <= j < k + 1 :: ws[j] == ws[1..][j - 1];
      k + 1
  }

  /** Index of the first requested channel with a queued message, or the length. */
  function FirstQueued(q: Queues, cs: seq<Channel>): (k: nat)
    ensures k <= |cs|
    ensures k < |cs| ==> QueueOf(q, cs[k]) != []
    ensures forall j | 0 <= j < k :: QueueOf(q, cs[j]) == []
  {
    if cs == [] then 0
    else if QueueOf(q, cs[0]) != [] then 0
    else
      var k := FirstQueued(q, cs[1..]);
      assert forall j | 1 <= j < k + 1 :: cs[j] == cs[1..][j - 1];
      k + 1
  }

  /** Position of the waiter of call `id`, or the length. */
  function PositionOf(ws: seq<Waiter>, id: CallId): (k: nat)
    ensures k <= |ws|
    ensures k < |ws| ==> ws[k].id == id
    ensures forall j | 0 <= j < k :: ws[j].id != id
  {
    if ws == [] then 0
    else if ws[0].id == id then 0
    else
      var k := PositionOf(ws[1..], id);
      assert forall j | 1 <= j < k + 1 :: ws[j] == ws[1..][j - 1];
      k + 1
  }

  function Without<T>(s: seq<T>, k: nat): (r: seq<T>)
    requires k < |s|
    ensures |r| == |s| - 1
    ensures forall j | 0 <= j < k :: r[j] == s[j]
    ensures forall j | k <= j < |s| - 1 :: r[j] == s[j + 1]
  {
    s[..k] + s[k + 1..]
  }

  /** Close the current drain signal and install a fresh one. */
  function Rotate(closes: seq<nat>): seq<nat>
    requires closes != []
  {
    closes[..|closes| - 1] + [closes[|closes| - 1] + 1, 0]
  }

  /** Scan, hand off, append or block: one pass of the loop in `push`. */
  function PushSection(b: Shared, cap: int, c: Channel, p: Payload): (r: (Shared, PushOutcome))
    requires b.closes != []
  {
    var k := FirstMatch(b.waiters, c);
    if k < |b.waiters| then
      (b.(waiters := Without(b.waiters, k)), HandedTo(b.waiters[k].id))
    else if b.queuedBytes + |p| <= cap then
      (b.(queues := SetQueue(b.queues, c, QueueOf(b.queues, c) + [p]),
          queuedBytes := b.queuedBytes + |p|), Appended)
    else
      (b, MustWait(|b.closes| - 1))
  }

  /** `popQueuedLocked`. */
  function TakeQueued(b: Shared, cs: seq<Channel>): (r: (Shared, Option<Delivery>))
    requires b.closes != []
  {
    var k := FirstQueued(b.queues, cs);
    if k == |cs| then (b, None)
    else
      var c := cs[k];
      var head := QueueOf(b.queues, c)[0];
      (b.(queues := SetQueue(b.queues, c, QueueOf(b.queues, c)[1..]),
          queuedBytes := b.queuedBytes - |head|,
          closes := Rotate(b.closes)),
       Some(Delivery(c, head)))
  }

  /** Take a queued message, give up if the context is done, or register. */
  function PopSection(b: Shared, id: CallId, cs: seq<Channel>, cancelled: bool): (r: (Shared, PopOutcome))
    requires b.closes != []
  {
    var (b', taken) := TakeQueued(b, cs);
    if taken.Some? then (b', Took(taken.value))
    else if cancelled then (b, GaveUp)
    else (b.(waiters := b.waiters + [Waiter(id, cs)]), Registered)
  }

  /** `removeWaiterLocked` for the waiter of call `id`. */
  function CancelSection(b: Shared, id: CallId): (r: (Shared, bool)) {
    var k := PositionOf(b.waiters, id);
    if k < |b.waiters| then (b.(waiters := Without(b.waiters, k)), true) else (b, false)
  }

  // ---------- Byte totals ----------

  function SumBytes(s: seq<Payload>): nat {
    if s == [] then 0 else |s[0]| + SumBytes(s[1..])
  }

  lemma {:induction false} SumBytesSnoc(s: seq<Payload>, p: Payload)
    ensures SumBytes(s + [p]) == SumBytes(s) + |p|
  {
    if s == [] {
      assert [] + [p] == [p];
    } else {
      SumBytesSnoc(s[1..], p);
      assert (s + [p])[1..] == s[1..] + [p];
    }
  }

  /** The total size of everything queued, over all channels. */
  ghost function TotalBytes(q: Queues): nat
    decreases |q|
  {
    if q == map[] then 0
    else
      var c :| c in q;
      SumBytes(q[c]) + TotalBytes(q - {c})
  }

  /** The total does not depend on the order in which channels are visited. */
  lemma {:induction false} TotalBytesSplit(q: Queues, c: Channel)
    requires c in q
    ensures TotalBytes(q) == SumBytes(q[c]) + TotalBytes(q - {c})
    decreases |q|
  {
    var d :| d in q && TotalBytes(q) == SumBytes(q[d]) + TotalBytes(q - {d});
    if d != c {
      TotalBytesSplit(q - {d}, c);
      TotalBytesSplit(q - {c}, d);
      assert q - {d} - {c} == q - {c} - {d};
    }
  }

  lemma TotalBytesSet(q: Queues, c: Channel, s: seq<Payload>)
    ensures TotalBytes(SetQueue(q, c, s)) == TotalBytes(q) - SumBytes(QueueOf(q, c)) + SumBytes(s)
  {
    var rest := q - {c};
    if c in q {
      TotalBytesSplit(q, c);
    } else {
      assert rest == q;
    }
    if s != [] {
      TotalBytesSplit(q[c := s], c);
      assert q[c := s] - {c} == rest;
    }
  }
}
