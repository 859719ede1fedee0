/** The atomic object that concurrent callers of the broker are promised: a
    set of FIFO channels, a line of waiting consumers and a byte cap, changed
    by one event at a time. A trace is legal when each event is allowed where
    it stands; each call is invoked, decided by at most one event and
    returned, so a legal trace is a linearisation of its own calls. */
module AtomicQueue {
  import opened Types
  import opened BrokerSections

  datatype Config = Config(maxBytes: int, cap: int)

  datatype Op = Push(channel: Channel, payload: Payload) | Pop(channels: seq<Channel>)

  datatype Outcome = Ok | Got(delivery: Delivery) | Timeout | Rejected

  datatype Event =
    | Invoke(id: CallId, op: Op)
    | Cancel(id: CallId)
    | Enqueue(id: CallId, item: Delivery)
    | Dequeue(id: CallId, item: Delivery)
    | HandOff(id: CallId, pop: CallId, item: Delivery)
    | Register(id: CallId)
    | FoundEmpty(id: CallId)
    | FoundFull(id: CallId)
    | Return(id: CallId, result: Outcome)

  /** Stalled: a push that has found the queues full at least once. */
  datatype Status = Pending | Stalled | Waiting | Decided(result: Outcome) | Finished(result: Outcome)

  datatype Spec = Spec(
    ops: seq<Op>, cancelled: seq<bool>, status: seq<Status>, queues: Queues, line: seq<Waiter>)
  {
    predicate Coherent() {
      |ops| == |cancelled| == |status|
    }
  }

  const INITIAL := Spec([], [], [], map[], [])

  /** What `push` and `Pop` check before they touch the lock. */
  predicate ValidOp(cfg: Config, op: Op) {
    match op
    case Push(c, p) => ValidChannel(c) && ValidPayload(p, cfg.maxBytes)
    case Pop(cs) => cs != [] && forall c | c in cs :: ValidChannel(c)
  }

  predicate AllEmpty(q: Queues, cs: seq<Channel>) {
    forall c | c in cs :: QueueOf(q, c) == []
  }

  predicate Wanted(line: seq<Waiter>, c: Channel) {
    exists w | w in line :: c in w.channels
  }

  predicate IsOpenPush(cfg: Config, s: Spec, id: CallId)
    requires s.Coherent()
  {
    && id < |s.ops| && s.ops[id].Push? && ValidOp(cfg, s.ops[id])
    && (s.status[id].Pending? || s.status[id].Stalled?)
  }

  predicate IsOpenPop(cfg: Config, s: Spec, id: CallId)
    requires s.Coherent()
  {
    id < |s.ops| && s.ops[id].Pop? && ValidOp(cfg, s.ops[id]) && s.status[id].Pending?
  }

  predicate IsItemOf(op: Op, d: Delivery) {
    op == Push(d.channel, d.payload)
  }

  ghost predicate Legal(cfg: Config, s: Spec, e: Event)
    requires s.Coherent()
  {
    match e
    case Invoke(id, _) => id == |s.ops|
    case Cancel(id) => id < |s.ops|
    case Enqueue(id, d) =>
      && IsOpenPush(cfg, s, id) && IsItemOf(s.ops[id], d)
      && !Wanted(s.line, d.channel)
      && TotalBytes(s.queues) + |d.payload| <= cfg.cap
    case Dequeue(id, d) =>
      && IsOpenPop(cfg, s, id)
      && !Wanted(s.line, d.channel)
      && (exists k | 0 <= k < |s.ops[id].channels| ::
            && s.ops[id].channels[k] == d.channel
            && AllEmpty(s.queues, s.ops[id].channels[..k]))
      && QueueOf(s.queues, d.channel) != []
      && QueueOf(s.queues, d.channel)[0] == d.payload
    case HandOff(id, pop, d) =>
      && IsOpenPush(cfg, s, id) && IsItemOf(s.ops[id], d)
      && pop < |s.ops| && s.ops[pop].Pop? && s.status[pop].Waiting?
      && AllEmpty(s.queues, s.ops[pop].channels)
      && (exists k | 0 <= k < |s.line| ::
            && s.line[k] == Waiter(pop, s.ops[pop].channels)
            && d.channel in s.ops[pop].channels
            && !Wanted(s.line[..k], d.channel))
    case Register(id) =>
      IsOpenPop(cfg, s, id) && !s.cancelled[id] && AllEmpty(s.queues, s.ops[id].channels)
    case FoundEmpty(id) =>
      && id < |s.ops| && s.ops[id].Pop? && ValidOp(cfg, s.ops[id])
      && (s.status[id].Pending? || s.status[id].Waiting?)
      && s.cancelled[id]
      && AllEmpty(s.queues, s.ops[id].channels)
    case FoundFull(id) =>
      && IsOpenPush(cfg, s, id)
      && !Wanted(s.line, s.ops[id].channel)
      && TotalBytes(s.queues) + |s.ops[id].payload| > cfg.cap
    case Return(id, r) =>
      && id < |s.ops|
      && match s.status[id]
         case Decided(r0) => r == r0
         case Pending => r == Rejected && !ValidOp(cfg, s.ops[id])
         case Stalled => r == Timeout && s.cancelled[id]
         case _ => false
  }

  function Leave(line: seq<Waiter>, id: CallId): seq<Waiter> {
    var k := PositionOf(line, id);
    if k < |line| then Without(line, k) else line
  }

  /** The effect of an event; whether it is allowed is for `Legal` to say. */
  function Apply(s: Spec, e: Event): (r: Spec)
    requires s.Coherent()
    requires e.Invoke? || e.id < |s.ops|
    requires e.HandOff? ==> e.pop < |s.ops|
    requires e.Register? ==> s.ops[e.id].Pop?
    requires e.Dequeue? ==> QueueOf(s.queues, e.item.channel) != []
    ensures r.Coherent()
  {
    match e
    case Invoke(_, op) =>
      s.(ops := s.ops + [op], cancelled := s.cancelled + [false], status := s.status + [Pending])
    case Cancel(id) => s.(cancelled := s.cancelled[id := true])
    case Enqueue(id, d) =>
      s.(queues := SetQueue(s.queues, d.channel, QueueOf(s.queues, d.channel) + [d.payload]),
         status := s.status[id := Decided(Ok)])
    case Dequeue(id, d) =>
      s.(queues := SetQueue(s.queues, d.channel, QueueOf(s.queues, d.channel)[1..]),
         status := s.status[id := Decided(Got(d))])
    case HandOff(id, pop, d) =>
      s.(line := Leave(s.line, pop),
         status := s.status[id := Decided(Ok)][pop := Decided(Got(d))])
    case Register(id) =>
      s.(line := s.line + [Waiter(id, s.ops[id].channels)], status := s.status[id := Waiting])
    case FoundEmpty(id) => s.(line := Leave(s.line, id), status := s.status[id := Decided(Timeout)])
    case FoundFull(id) => s.(status := s.status[id := Stalled])
    case Return(id, r) => s.(status := s.status[id := Finished(r)])
  }

  type Trace = seq<Event>

  function Init<T>(s: seq<T>): seq<T>
    requires s != []
  {
    s[..|s| - 1]
  }

  function Last<T>(s: seq<T>): T
    requires s != []
  {
    s[|s| - 1]
  }

  ghost predicate LegalTrace(cfg: Config, t: Trace)
    decreases |t|, 0
  {
    t == [] || (LegalTrace(cfg, Init(t)) && Legal(cfg, After(cfg, Init(t)), Last(t)))
  }

  /** The atomic state a legal trace leads to. */
  ghost function After(cfg: Config, t: Trace): (s: Spec)
    requires LegalTrace(cfg, t)
    ensures s.Coherent()
    decreases |t|, 1
  {
    if t == [] then INITIAL else Apply(After(cfg, Init(t)), Last(t))
  }

  lemma Extend(cfg: Config, t: Trace, e: Event)
    requires LegalTrace(cfg, t) && Legal(cfg, After(cfg, t), e)
    ensures LegalTrace(cfg, t + [e])
    ensures After(cfg, t + [e]) == Apply(After(cfg, t), e)
  {
  }

  /** Every prefix of a legal trace is legal, and the next event is legal there. */
  lemma {:induction false} Prefix(cfg: Config, t: Trace, k: nat)
    requires LegalTrace(cfg, t) && k <= |t|
    ensures LegalTrace(cfg, t[..k])
    ensures k < |t| ==> Legal(cfg, After(cfg, t[..k]), t[k])
    ensures k < |t| ==> LegalTrace(cfg, t[..k + 1])
                        && After(cfg, t[..k + 1]) == Apply(After(cfg, t[..k]), t[k])
    decreases |t|
  {
    if k == |t| {
      assert t[..k] == t;
    } else if k == |t| - 1 {
      assert t[..k] == Init(t) && t[..k + 1] == t;
    } else {
      Prefix(cfg, Init(t), k);
      assert Init(t)[..k] == t[..k] && Init(t)[..k + 1] == t[..k + 1];
    }
  }

  // ---------- Messages per channel ----------

  /** One message as seen by one call. */
  datatype Hop = Hop(id: CallId, payload: Payload)

  function PushedBy(e: Event, c: Channel): seq<Hop> {
    if (e.Enqueue? || e.HandOff?) && e.item.channel == c then [Hop(e.id, e.item.payload)] else []
  }

  function PoppedBy(e: Event, c: Channel): seq<Hop> {
    if e.Dequeue? && e.item.channel == c then [Hop(e.id, e.item.payload)]
    else if e.HandOff? && e.item.channel == c then [Hop(e.pop, e.item.payload)]
    else []
  }

  /** The messages accepted on `c`, in the order in which they took effect. */
  function Pushed(t: Trace, c: Channel): seq<Hop> {
    if t == [] then [] else Pushed(Init(t), c) + PushedBy(Last(t), c)
  }

  /** The messages assigned to consumers from `c`, in order. */
  function Popped(t: Trace, c: Channel): seq<Hop> {
    if t == [] then [] else Popped(Init(t), c) + PoppedBy(Last(t), c)
  }

  function Payloads(h: seq<Hop>): (r: seq<Payload>)
    ensures |r| == |h| && forall k | 0 <= k < |h| :: r[k] == h[k].payload
  {
    seq(|h|, k requires 0 <= k < |h| => h[k].payload)
  }

  /** How one event changes the queue of one channel. */
  predicate QueueMove(e: Event, c: Channel, q: seq<Payload>, q': seq<Payload>) {
    if e.Enqueue? && e.item.channel == c then q' == q + [e.item.payload]
    else if e.Dequeue? && e.item.channel == c then q == [e.item.payload] + q'
    else q' == q && (e.HandOff? && e.item.channel == c ==> q == [])
  }

  lemma QueueStep(cfg: Config, s: Spec, e: Event, c: Channel)
    requires s.Coherent() && Legal(cfg, s, e)
    ensures QueueMove(e, c, QueueOf(s.queues, c), QueueOf(Apply(s, e).queues, c))
  {
  }

  lemma FifoStep(e: Event, c: Channel, pushed: seq<Hop>, popped: seq<Hop>, q: seq<Payload>, q': seq<Payload>)
    requires Payloads(pushed) == Payloads(popped) + q && QueueMove(e, c, q, q')
    ensures Payloads(pushed + PushedBy(e, c)) == Payloads(popped + PoppedBy(e, c)) + q'
  {
  }

  /** Per-channel FIFO: the messages assigned so far, followed by the queue,
      are the messages accepted so far, in the same order. */
  lemma {:induction false} Fifo(cfg: Config, t: Trace, c: Channel)
    requires LegalTrace(cfg, t)
    ensures Payloads(Pushed(t, c)) == Payloads(Popped(t, c)) + QueueOf(After(cfg, t).queues, c)
    decreases |t|
  {
    if t != [] {
      var t0 := Init(t);
      Fifo(cfg, t0, c);
      var q, q' := QueueOf(After(cfg, t0).queues, c), QueueOf(After(cfg, t).queues, c);
      assert QueueMove(Last(t), c, q, q') by {
        QueueStep(cfg, After(cfg, t0), Last(t), c);
      }
      FifoStep(Last(t), c, Pushed(t0, c), Popped(t0, c), q, q');
    }
  }
}
