/** What every legal trace of the atomic queue promises its callers: each call
    takes effect once, between its invocation and its return; order is kept
    per channel and per producer; and the line is served first come, first
    served. None of this mentions the broker's own state. */
module Linearisation {
  import opened Types
  import opened BrokerSections
  import opened AtomicQueue

  /** `e` is the one event at which call `id` takes effect. */
  predicate Decides(e: Event, id: CallId) {
    match e
    case Enqueue(a, _) => a == id
    case Dequeue(a, _) => a == id
    case HandOff(a, b, _) => a == id || b == id
    case FoundEmpty(a) => a == id
    case _ => false
  }

  function DecidedResult(e: Event, id: CallId): Outcome
    requires Decides(e, id)
  {
    match e
    case Enqueue(_, _) => Ok
    case Dequeue(_, d) => Got(d)
    case HandOff(a, _, d) => if a == id then Ok else Got(d)
    case FoundEmpty(_) => Timeout
  }

  /** Results that need a deciding event: a rejected call and a push that
      timed out have no effect and no deciding event. */
  predicate Effective(op: Op, r: Outcome) {
    r.Ok? || r.Got? || (r.Timeout? && op.Pop?)
  }

  predicate Open(st: Status) {
    st.Pending? || st.Stalled? || st.Waiting?
  }

  /** One event seen by one call. */
  predicate StatusMove(op: Op, e: Event, id: CallId, st: Status, st': Status) {
    if Decides(e, id) then
      Open(st) && st' == Decided(DecidedResult(e, id)) && Effective(op, DecidedResult(e, id))
    else if e.Return? && e.id == id then
      && st' == Finished(e.result)
      && if Effective(op, e.result) then st == Decided(e.result) else Open(st)
    else
      !(e.Invoke? && e.id == id) && (st' == st || (Open(st) && Open(st')))
  }

  /** A decided status carries an effective result and only pushes stall. */
  predicate SoundStatus(op: Op, st: Status) {
    && (st.Decided? ==> Effective(op, st.result))
    && (st.Stalled? ==> op.Push?)
  }

  predicate Sound(s: Spec)
    requires s.Coherent()
  {
    forall i | 0 <= i < |s.ops| :: SoundStatus(s.ops[i], s.status[i])
  }

  lemma StatusStep(cfg: Config, s: Spec, e: Event, id: CallId)
    requires s.Coherent() && Sound(s) && Legal(cfg, s, e) && id < |s.ops|
    ensures s.ops <= Apply(s, e).ops
    ensures StatusMove(s.ops[id], e, id, s.status[id], Apply(s, e).status[id])
    ensures SoundStatus(s.ops[id], Apply(s, e).status[id])
  {
  }

  lemma {:induction false} SoundTrace(cfg: Config, t: Trace)
    requires LegalTrace(cfg, t)
    ensures Sound(After(cfg, t))
    decreases |t|
  {
    if t != [] {
      var s, e := After(cfg, Init(t)), Last(t);
      SoundTrace(cfg, Init(t));
      forall i | 0 <= i < |Apply(s, e).ops|
        ensures SoundStatus(Apply(s, e).ops[i], Apply(s, e).status[i])
      {
        if i < |s.ops| {
          StatusStep(cfg, s, e, i);
        }
      }
    }
  }

  predicate Mentions(e: Event, id: CallId) {
    e.id == id || (e.HandOff? && e.pop == id)
  }

  lemma {:induction false} MentionsInvoked(cfg: Config, t: Trace, m: nat, id: CallId)
    requires LegalTrace(cfg, t) && m < |t| && Mentions(t[m], id)
    ensures id < |After(cfg, t).ops|
    decreases |t|
  {
    if m < |t| - 1 {
      MentionsInvoked(cfg, Init(t), m, id);
    }
  }

  lemma {:induction false} NotMentionedBefore(cfg: Config, t: Trace, id: CallId)
    requires LegalTrace(cfg, t) && id >= |After(cfg, t).ops|
    ensures forall m | 0 <= m < |t| :: !Mentions(t[m], id)
  {
    forall m | 0 <= m < |t| ensures !Mentions(t[m], id) {
      if Mentions(t[m], id) {
        MentionsInvoked(cfg, t, m, id);
      }
    }
  }

  /** Where a call was invoked (`i`), decided (`j`) and returned (`k`). */
  predicate History(t: Trace, op: Op, id: CallId, st: Status, i: nat, j: nat, k: nat) {
    && i < |t| && t[i] == Invoke(id, op)
    && (forall m | 0 <= m < |t| && t[m].Invoke? && t[m].id == id :: m == i)
    && (forall m | 0 <= m < |t| && Decides(t[m], id) :: m == j)
    && (forall m | 0 <= m < |t| && t[m].Return? && t[m].id == id :: m == k)
    && (if (st.Decided? || st.Finished?) && Effective(op, st.result)
        then i < j < |t| && Decides(t[j], id) && DecidedResult(t[j], id) == st.result
        else j == |t|)
    && (if st.Finished?
        then i < k < |t| && t[k] == Return(id, st.result) && (j < |t| ==> j < k)
        else k == |t|)
  }

  lemma HistoryStep(t: Trace, e: Event, op: Op, id: CallId, st: Status, st': Status, i: nat, j: nat, k: nat)
    returns (j': nat, k': nat)
    requires History(t, op, id, st, i, j, k) && StatusMove(op, e, id, st, st')
    requires st.Decided? ==> Effective(op, st.result)
    ensures History(t + [e], op, id, st', i, j', k')
  {
    j' := if Decides(e, id) then |t| else if j == |t| then |t| + 1 else j;
    k' := if e.Return? && e.id == id then |t| else if k == |t| then |t| + 1 else k;
  }

  lemma InvokedLast(t: Trace, op: Op, id: CallId)
    requires t != [] && Last(t) == Invoke(id, op)
    requires forall m | 0 <= m < |t| - 1 :: !Mentions(t[m], id)
    ensures History(t, op, id, Pending, |t| - 1, |t|, |t|)
  {
  }

  /** A call that is invoked by the last event. */
  lemma {:induction false} HistoryBegins(cfg: Config, t: Trace, id: CallId)
    requires t != [] && LegalTrace(cfg, t) && |After(cfg, Init(t)).ops| <= id < |After(cfg, t).ops|
    ensures History(t, After(cfg, t).ops[id], id, After(cfg, t).status[id], |t| - 1, |t|, |t|)
  {
    assert forall m | 0 <= m < |t| - 1 :: !Mentions(Init(t)[m], id) by {
      NotMentionedBefore(cfg, Init(t), id);
    }
    assert forall m | 0 <= m < |t| - 1 :: t[m] == Init(t)[m];
    assert Legal(cfg, After(cfg, Init(t)), Last(t));
    InvokedLast(t, After(cfg, t).ops[id], id);
  }

  /** Every call of a legal trace has exactly one invocation, at most one
      deciding event and at most one return, in that order, and it returns
      what the deciding event says. */
  lemma {:induction false} CallHistory(cfg: Config, t: Trace, id: CallId) returns (i: nat, j: nat, k: nat)
    requires LegalTrace(cfg, t) && id < |After(cfg, t).ops|
    ensures History(t, After(cfg, t).ops[id], id, After(cfg, t).status[id], i, j, k)
    decreases |t|
  {
    var t0, e := Init(t), Last(t);
    var s := After(cfg, t0);
    SoundTrace(cfg, t0);
    if id < |s.ops| {
      i, j, k := CallHistory(cfg, t0, id);
      assert StatusMove(s.ops[id], e, id, s.status[id], After(cfg, t).status[id])
             && SoundStatus(s.ops[id], s.status[id]) && After(cfg, t).ops[id] == s.ops[id] by {
        StatusStep(cfg, s, e, id);
      }
      assert t0 + [e] == t;
      j, k := HistoryStep(t0, e, s.ops[id], id, s.status[id], After(cfg, t).status[id], i, j, k);
    } else {
      i, j, k := |t| - 1, |t|, |t|;
      HistoryBegins(cfg, t, id);
    }
  }

  /** Real-time order: a call that returned before another was invoked also
      took effect before it. */
  lemma RealTimeOrder(cfg: Config, t: Trace, ja: nat, ra: nat, ib: nat, jb: nat)
    requires LegalTrace(cfg, t) && ja < |t| && ra < ib < |t| && jb < |t|
    requires t[ra].Return? && Decides(t[ja], t[ra].id)
    requires t[ib].Invoke? && Decides(t[jb], t[ib].id)
    ensures ja < ra < ib < jb
  {
    MentionsInvoked(cfg, t, ra, t[ra].id);
    MentionsInvoked(cfg, t, ib, t[ib].id);
    var _, _, _ := CallHistory(cfg, t, t[ra].id);
    var _, _, _ := CallHistory(cfg, t, t[ib].id);
  }

  /** The return at `k` was decided at event `j` of the same call, invoked at
      `i`; a call without effect was decided nowhere. */
  predicate DecidedAt(t: Trace, k: nat, i: nat, j: nat)
    requires k < |t| && t[k].Return?
  {
    && i < k && t[i].Invoke? && t[i].id == t[k].id
    && (forall m | 0 <= m < |t| && Decides(t[m], t[k].id) :: m == j)
    && if Effective(t[i].op, t[k].result)
       then i < j < k && Decides(t[j], t[k].id) && DecidedResult(t[j], t[k].id) == t[k].result
       else j == |t|
  }

  /** A returned result was decided once, between invocation and return,
      unless the call had no effect, and then nothing decided it. */
  lemma ReturnDecided(cfg: Config, t: Trace, k: nat) returns (i: nat, j: nat)
    requires LegalTrace(cfg, t) && k < |t| && t[k].Return?
    ensures DecidedAt(t, k, i, j)
  {
    MentionsInvoked(cfg, t, k, t[k].id);
    var k';
    i, j, k' := CallHistory(cfg, t, t[k].id);
  }

  ghost predicate ResultsDecided(t: Trace) {
    forall k | 0 <= k < |t| && t[k].Return? :: exists i: nat, j: nat :: DecidedAt(t, k, i, j)
  }

  /** Of two calls that do not overlap, the earlier takes effect earlier. */
  predicate InOrder(t: Trace, ja: nat, ra: nat, ib: nat, jb: nat)
    requires ja < |t| && ra < |t| && ib < |t| && jb < |t|
  {
    ra < ib && t[ra].Return? && Decides(t[ja], t[ra].id) && t[ib].Invoke? && Decides(t[jb], t[ib].id)
    ==> ja < ra < ib < jb
  }

  ghost predicate KeepsRealTime(t: Trace) {
    forall ja: nat, ra: nat, ib: nat, jb: nat | ja < |t| && ra < |t| && ib < |t| && jb < |t| ::
      InOrder(t, ja, ra, ib, jb)
  }

  lemma LegalTraceIsLinearisable(cfg: Config, t: Trace)
    requires LegalTrace(cfg, t)
    ensures ResultsDecided(t) && KeepsRealTime(t)
  {
    forall k | 0 <= k < |t| && t[k].Return? ensures exists i: nat, j: nat :: DecidedAt(t, k, i, j) {
      var i, j := ReturnDecided(cfg, t, k);
      assert DecidedAt(t, k, i, j);
    }
    forall ja: nat, ra: nat, ib: nat, jb: nat | ja < |t| && ra < |t| && ib < |t| && jb < |t|
      ensures InOrder(t, ja, ra, ib, jb)
    {
      if ra < ib && t[ra].Return? && Decides(t[ja], t[ra].id) && t[ib].Invoke? && Decides(t[jb], t[ib].id) {
        RealTimeOrder(cfg, t, ja, ra, ib, jb);
      }
    }
  }

  /** A pop that returns timeout had an instant, during its call, at which its
      context was done and every channel it asked for was empty. */
  lemma PopTimeoutSawEmpty(cfg: Config, t: Trace, k: nat) returns (i: nat, j: nat)
    requires LegalTrace(cfg, t) && k < |t| && t[k].Return? && t[k].result == Timeout
    requires t[k].id < |After(cfg, t).ops| && After(cfg, t).ops[t[k].id].Pop?
    ensures i < j < k && t[i] == Invoke(t[k].id, After(cfg, t).ops[t[k].id]) && t[j] == FoundEmpty(t[k].id)
    ensures LegalTrace(cfg, t[..j])
    ensures AllEmpty(After(cfg, t[..j]).queues, t[i].op.channels)
  {
    var id := t[k].id;
    var k';
    i, j, k' := CallHistory(cfg, t, id);
    Prefix(cfg, t, j);
    MentionsInvoked(cfg, t[..j], i, id);
    var i', _, _ := CallHistory(cfg, t[..j], id);
    assert t[..j][i] == t[i];
  }

  lemma {:induction false} StalledSawFull(cfg: Config, t: Trace, id: CallId) returns (j: nat)
    requires LegalTrace(cfg, t) && id < |After(cfg, t).ops| && After(cfg, t).ops[id].Push?
    requires After(cfg, t).status[id] in {Stalled, Finished(Timeout)}
    ensures j < |t| && t[j] == FoundFull(id) && LegalTrace(cfg, t[..j])
    ensures TotalBytes(After(cfg, t[..j]).queues) + |After(cfg, t).ops[id].payload| > cfg.cap
    decreases |t|
  {
    var t0, e := Init(t), Last(t);
    var s := After(cfg, t0);
    SoundTrace(cfg, t0);
    if e == FoundFull(id) {
      j := |t| - 1;
      assert t[..j] == t0;
    } else {
      StatusStep(cfg, s, e, id);
      j := StalledSawFull(cfg, t0, id);
      assert t[..j] == t0[..j];
    }
  }

  /** Whatever a call does comes after its invocation. */
  lemma AfterInvocation(cfg: Config, t: Trace, j: nat, id: CallId) returns (i: nat)
    requires LegalTrace(cfg, t) && j < |t| && Mentions(t[j], id) && !t[j].Invoke?
    ensures i < j && t[i].Invoke? && t[i].id == id
  {
    Prefix(cfg, t, j);
    var j', k';
    i, j', k' := CallHistory(cfg, t[..j], id);
  }

  /** A push that returns timeout had an instant, during its call, at which its
      payload did not fit under the cap, and it has no effect at all. */
  lemma PushTimeoutSawFull(cfg: Config, t: Trace, k: nat) returns (i: nat, j: nat)
    requires LegalTrace(cfg, t) && k < |t| && t[k].Return? && t[k].result == Timeout
    requires t[k].id < |After(cfg, t).ops| && After(cfg, t).ops[t[k].id].Push?
    ensures i < j < k && t[i] == Invoke(t[k].id, After(cfg, t).ops[t[k].id]) && t[j] == FoundFull(t[k].id)
    ensures LegalTrace(cfg, t[..j])
    ensures TotalBytes(After(cfg, t[..j]).queues) + |t[i].op.payload| > cfg.cap
    ensures forall m | 0 <= m < |t| :: !Decides(t[m], t[k].id)
  {
    var id := t[k].id;
    var j', k';
    i, j', k' := CallHistory(cfg, t, id);
    Prefix(cfg, t, k);
    var u := t[..k + 1];
    assert u[k] == t[k] && u[i] == t[i];
    MentionsInvoked(cfg, u, k, id);
    var i', _, _ := CallHistory(cfg, u, id);
    j := StalledSawFull(cfg, u, id);
    assert u[..j] == t[..j] && u[j] == t[j];
    var i'' := AfterInvocation(cfg, t, j, id);
  }

  // ---------- Identity and order of messages ----------

  /** The event behind a position of the accepted sequence. */
  lemma {:induction false} PushedFrom(t: Trace, c: Channel, x: nat) returns (m: nat)
    requires x < |Pushed(t, c)|
    ensures m < |t| && PushedBy(t[m], c) == [Pushed(t, c)[x]]
    ensures |Pushed(t[..m], c)| == x
    decreases |t|
  {
    var t0 := Init(t);
    if x < |Pushed(t0, c)| {
      m := PushedFrom(t0, c, x);
      assert t[..m] == t0[..m];
    } else {
      m := |t| - 1;
      assert t[..m] == t0;
    }
  }

  lemma {:induction false} PushedGrows(t: Trace, c: Channel, m: nat)
    requires m <= |t|
    ensures Pushed(t[..m], c) <= Pushed(t, c)
    decreases |t|
  {
    if m == |t| {
      assert t[..m] == t;
    } else {
      PushedGrows(Init(t), c, m);
      assert Init(t)[..m] == t[..m];
    }
  }

  /** The position of an accepting event in the accepted sequence. */
  lemma PushedAt(t: Trace, c: Channel, m: nat)
    requires m < |t| && PushedBy(t[m], c) != []
    ensures |Pushed(t[..m], c)| < |Pushed(t, c)|
    ensures Pushed(t, c)[|Pushed(t[..m], c)|] == PushedBy(t[m], c)[0]
  {
    PushedGrows(t, c, m + 1);
    assert Init(t[..m + 1]) == t[..m];
  }

  /** No call is accepted twice, on one channel or on two. */
  lemma AcceptedOnce(cfg: Config, t: Trace, c: Channel, x: nat, c': Channel, y: nat)
    requires LegalTrace(cfg, t) && x < |Pushed(t, c)| && y < |Pushed(t, c')|
    requires Pushed(t, c)[x].id == Pushed(t, c')[y].id
    ensures c == c' && x == y
  {
    var m := PushedFrom(t, c, x);
    var n := PushedFrom(t, c', y);
    var id := Pushed(t, c)[x].id;
    MentionsInvoked(cfg, t, m, id);
    var _, _, _ := CallHistory(cfg, t, id);
    assert Decides(t[m], id) && Decides(t[n], id);
  }

  /** What `e` accepts on `c` is the operation of its call. */
  lemma {:induction false} AcceptedItem(cfg: Config, t: Trace, m: nat, id: CallId)
    requires LegalTrace(cfg, t) && m < |t| && (t[m].Enqueue? || t[m].HandOff?) && t[m].id == id
    ensures id < |After(cfg, t).ops| && IsItemOf(After(cfg, t).ops[id], t[m].item)
    decreases |t|
  {
    if m < |t| - 1 {
      AcceptedItem(cfg, Init(t), m, id);
    }
  }

  /** Exactly the pushes decided Ok are accepted, with their own payload; in
      particular a push that timed out is nowhere among the messages. */
  lemma AcceptedIff(cfg: Config, t: Trace, c: Channel, id: CallId, p: Payload)
    requires LegalTrace(cfg, t) && id < |After(cfg, t).ops|
    ensures Hop(id, p) in Pushed(t, c) <==>
            && After(cfg, t).ops[id] == Push(c, p)
            && After(cfg, t).status[id] in {Decided(Ok), Finished(Ok)}
  {
    var s := After(cfg, t);
    var i, j, _ := CallHistory(cfg, t, id);
    if Hop(id, p) in Pushed(t, c) {
      var x :| 0 <= x < |Pushed(t, c)| && Pushed(t, c)[x] == Hop(id, p);
      var m := PushedFrom(t, c, x);
      AcceptedItem(cfg, t, m, id);
    }
    if s.ops[id] == Push(c, p) && s.status[id] in {Decided(Ok), Finished(Ok)} {
      AcceptedItem(cfg, t, j, id);
      PushedAt(t, c, j);
    }
  }

  // ---------- The same for the messages assigned ----------

  /** The event behind a position of the assigned sequence. */
  lemma {:induction false} PoppedFrom(t: Trace, c: Channel, x: nat) returns (m: nat)
    requires x < |Popped(t, c)|
    ensures m < |t| && PoppedBy(t[m], c) == [Popped(t, c)[x]]
    ensures |Popped(t[..m], c)| == x
    decreases |t|
  {
    var t0 := Init(t);
    if x < |Popped(t0, c)| {
      m := PoppedFrom(t0, c, x);
      assert t[..m] == t0[..m];
    } else {
      m := |t| - 1;
      assert t[..m] == t0;
    }
  }

  lemma {:induction false} PoppedAt(t: Trace, c: Channel, m: nat)
    requires m < |t| && PoppedBy(t[m], c) != []
    ensures PoppedBy(t[m], c)[0] in Popped(t, c)
    decreases |t|
  {
    if m < |t| - 1 {
      PoppedAt(Init(t), c, m);
    }
  }

  /** No call is assigned two messages. */
  lemma AssignedOnce(cfg: Config, t: Trace, c: Channel, x: nat, c': Channel, y: nat)
    requires LegalTrace(cfg, t) && x < |Popped(t, c)| && y < |Popped(t, c')|
    requires Popped(t, c)[x].id == Popped(t, c')[y].id
    ensures c == c' && x == y
  {
    var m := PoppedFrom(t, c, x);
    var n := PoppedFrom(t, c', y);
    var id := Popped(t, c)[x].id;
    MentionsInvoked(cfg, t, m, id);
    var _, _, _ := CallHistory(cfg, t, id);
    assert Decides(t[m], id) && Decides(t[n], id);
  }

  lemma AssignedItem(cfg: Config, t: Trace, c: Channel, m: nat, h: Hop)
    requires LegalTrace(cfg, t) && m < |t| && PoppedBy(t[m], c) == [h]
    ensures Decides(t[m], h.id) && DecidedResult(t[m], h.id) == Got(Delivery(c, h.payload))
  {
    Prefix(cfg, t, m);
    assert t[m].HandOff? ==> t[m].id != t[m].pop;
  }

  lemma DecidedStatus(t: Trace, op: Op, id: CallId, st: Status, i: nat, j: nat, k: nat, m: nat)
    requires History(t, op, id, st, i, j, k) && m < |t| && Decides(t[m], id)
    ensures m == j && (st.Decided? || st.Finished?) && st.result == DecidedResult(t[m], id)
  {
  }

  /** Exactly the pops decided with a message are assigned it, from the channel
      and with the payload they return. */
  lemma AssignedIff(cfg: Config, t: Trace, c: Channel, id: CallId, p: Payload)
    requires LegalTrace(cfg, t) && id < |After(cfg, t).ops|
    ensures Hop(id, p) in Popped(t, c) <==>
              After(cfg, t).status[id] in {Decided(Got(Delivery(c, p))), Finished(Got(Delivery(c, p)))}
  {
    var i, j, k := CallHistory(cfg, t, id);
    var op, st := After(cfg, t).ops[id], After(cfg, t).status[id];
    if Hop(id, p) in Popped(t, c) {
      var x :| 0 <= x < |Popped(t, c)| && Popped(t, c)[x] == Hop(id, p);
      var m := PoppedFrom(t, c, x);
      AssignedItem(cfg, t, c, m, Hop(id, p));
      DecidedStatus(t, op, id, st, i, j, k, m);
    }
    if st in {Decided(Got(Delivery(c, p))), Finished(Got(Delivery(c, p)))} {
      assert PoppedBy(t[j], c) == [Hop(id, p)];
      PoppedAt(t, c, j);
    }
  }

  // ---------- Producer order ----------

  /** Producer order: when one push returned before the next was invoked, the
      first stands before the second in the accepted sequence of the channel;
      by `Fifo` that is the order in which they are delivered. */
  lemma ProducerOrder(cfg: Config, t: Trace, c: Channel, ra: nat, ib: nat, x: nat, y: nat)
    requires LegalTrace(cfg, t) && ra < ib < |t| && t[ra].Return? && t[ib].Invoke?
    requires x < |Pushed(t, c)| && Pushed(t, c)[x].id == t[ra].id
    requires y < |Pushed(t, c)| && Pushed(t, c)[y].id == t[ib].id
    ensures x < y
  {
    var ja := PushedFrom(t, c, x);
    var jb := PushedFrom(t, c, y);
    RealTimeOrder(cfg, t, ja, ra, ib, jb);
    PushedGrows(t[..jb], c, ja + 1);
    assert t[..jb][..ja + 1] == t[..ja + 1];
    assert Init(t[..ja + 1]) == t[..ja];
  }

  // ---------- The line of waiting consumers ----------

  /** `e` takes consumer `v` out of the line. */
  predicate LeavesLine(e: Event, v: CallId) {
    (e.HandOff? && e.pop == v) || e == FoundEmpty(v)
  }

  predicate LineSound(s: Spec)
    requires s.Coherent()
  {
    && (forall k | 0 <= k < |s.line| ::
          && s.line[k].id < |s.ops| && s.ops[s.line[k].id] == Pop(s.line[k].channels)
          && s.status[s.line[k].id].Waiting?)
    && (forall k, l | 0 <= k < l < |s.line| :: s.line[k].id != s.line[l].id)
  }

  /** The consumer that `e` takes out of the line, if any. */
  function Leaver(e: Event): Option<CallId> {
    match e
    case HandOff(_, pop, _) => Some(pop)
    case FoundEmpty(id) => Some(id)
    case _ => None
  }

  /** What one event does to the line and to those who wait in it. */
  predicate LineMove(s: Spec, e: Event, s': Spec)
    requires s.Coherent() && s'.Coherent()
  {
    && s.ops <= s'.ops
    && (if e.Register? then
          && e.id < |s.ops| && s'.ops == s.ops && s.ops[e.id].Pop? && s.status[e.id].Pending?
          && s'.line == s.line + [Waiter(e.id, s.ops[e.id].channels)] && s'.status == s.status[e.id := Waiting]
        else
          && s'.line == (if Leaver(e).Some? then Leave(s.line, Leaver(e).value) else s.line)
          && forall i | 0 <= i < |s.ops| && s.status[i].Waiting? && Leaver(e) != Some(i) :: s'.status[i].Waiting?)
  }

  lemma LineMoves(cfg: Config, s: Spec, e: Event)
    requires s.Coherent() && Legal(cfg, s, e)
    ensures LineMove(s, e, Apply(s, e))
  {
  }

  lemma LineSoundJoin(s: Spec, s': Spec, id: CallId)
    requires s.Coherent() && s'.Coherent() && LineSound(s) && s'.ops == s.ops
    requires id < |s.ops| && s.ops[id].Pop? && s.status[id].Pending?
    requires s'.line == s.line + [Waiter(id, s.ops[id].channels)] && s'.status == s.status[id := Waiting]
    ensures LineSound(s')
  {
  }

  /** The line does not change, nor does any status of its members. */
  lemma LineSoundSame(s: Spec, s': Spec)
    requires s.Coherent() && s'.Coherent() && LineSound(s) && s'.line == s.line && s.ops <= s'.ops
    requires forall i | 0 <= i < |s.ops| && s.status[i].Waiting? :: s'.status[i].Waiting?
    ensures LineSound(s')
  {
  }

  lemma LineSoundLeave(s: Spec, s': Spec, id: CallId)
    requires s.Coherent() && s'.Coherent() && LineSound(s) && s'.line == Leave(s.line, id) && s.ops <= s'.ops
    requires forall i | 0 <= i < |s.ops| && i != id && s.status[i].Waiting? :: s'.status[i].Waiting?
    ensures LineSound(s')
  {
  }

  lemma LineSoundStep(s: Spec, e: Event, s': Spec)
    requires s.Coherent() && s'.Coherent() && LineSound(s) && LineMove(s, e, s')
    ensures LineSound(s')
  {
    if e.Register? {
      LineSoundJoin(s, s', e.id);
    } else if Leaver(e).Some? {
      LineSoundLeave(s, s', Leaver(e).value);
    } else {
      LineSoundSame(s, s');
    }
  }

  lemma {:induction false} LineSoundTrace(cfg: Config, t: Trace)
    requires LegalTrace(cfg, t)
    ensures LineSound(After(cfg, t))
    decreases |t|
  {
    if t != [] {
      LineSoundTrace(cfg, Init(t));
      LineMoves(cfg, After(cfg, Init(t)), Last(t));
      LineSoundStep(After(cfg, Init(t)), Last(t), After(cfg, t));
    }
  }

  /** Where a place of the line is after an event that does not remove it. */
  function NewPlace(s: Spec, e: Event, x: nat): nat {
    if e.HandOff? || e.FoundEmpty? then
      var k := PositionOf(s.line, if e.HandOff? then e.pop else e.id);
      if x <= k then x else x - 1
    else x
  }

  lemma PlaceStep(cfg: Config, s: Spec, e: Event, x: nat)
    requires s.Coherent() && Legal(cfg, s, e)
    requires x < |s.line| && !LeavesLine(e, s.line[x].id)
    ensures NewPlace(s, e, x) < |Apply(s, e).line|
    ensures Apply(s, e).line[NewPlace(s, e, x)] == s.line[x]
    ensures forall y | x < y < |s.line| && !LeavesLine(e, s.line[y].id) :: NewPlace(s, e, x) < NewPlace(s, e, y)
  {
  }

  lemma RegisterStep(cfg: Config, t: Trace)
    requires t != [] && LegalTrace(cfg, t) && Last(t).Register?
    ensures var line, line' := After(cfg, Init(t)).line, After(cfg, t).line;
            line <= line' && |line'| == |line| + 1 && line'[|line|].id == Last(t).id
  {
  }

  /** A consumer that registered and did not leave is in the line. */
  lemma {:induction false} StillInLine(cfg: Config, t: Trace, rv: nat) returns (x: nat)
    requires LegalTrace(cfg, t) && rv < |t| && t[rv].Register?
    requires forall m | rv < m < |t| :: !LeavesLine(t[m], t[rv].id)
    ensures x < |After(cfg, t).line| && After(cfg, t).line[x].id == t[rv].id
    decreases |t|
  {
    var t0 := Init(t);
    if rv == |t| - 1 {
      RegisterStep(cfg, t);
      x := |After(cfg, t0).line|;
    } else {
      x := StillInLine(cfg, t0, rv);
      PlaceStep(cfg, After(cfg, t0), Last(t), x);
      x := NewPlace(After(cfg, t0), Last(t), x);
    }
  }

  /** The line is kept in registration order. */
  lemma {:induction false} LineOrder(cfg: Config, t: Trace, rv: nat, rw: nat) returns (x: nat, y: nat)
    requires LegalTrace(cfg, t) && rv < rw < |t| && t[rv].Register? && t[rw].Register?
    requires forall m | rv < m < |t| :: !LeavesLine(t[m], t[rv].id)
    requires forall m | rw < m < |t| :: !LeavesLine(t[m], t[rw].id)
    ensures x < y < |After(cfg, t).line|
    ensures After(cfg, t).line[x].id == t[rv].id && After(cfg, t).line[y].id == t[rw].id
    decreases |t|
  {
    var t0 := Init(t);
    if rw == |t| - 1 {
      x := StillInLine(cfg, t0, rv);
      RegisterStep(cfg, t);
      y := |After(cfg, t0).line|;
    } else {
      x, y := LineOrder(cfg, t0, rv, rw);
      PlaceStep(cfg, After(cfg, t0), Last(t), x);
      PlaceStep(cfg, After(cfg, t0), Last(t), y);
      x, y := NewPlace(After(cfg, t0), Last(t), x), NewPlace(After(cfg, t0), Last(t), y);
    }
  }

  lemma LineChannels(cfg: Config, t: Trace, iv: nat, x: nat)
    requires LegalTrace(cfg, t) && iv < |t| && t[iv].Invoke?
    requires x < |After(cfg, t).line| && After(cfg, t).line[x].id == t[iv].id
    ensures t[iv].op == Pop(After(cfg, t).line[x].channels)
  {
    LineSoundTrace(cfg, t);
    var _, _, _ := CallHistory(cfg, t, t[iv].id);
  }

  /** Leaving the line is the deciding event of a consumer, so it leaves once. */
  lemma LeavesOnce(cfg: Config, t: Trace, k: nat, w: CallId)
    requires LegalTrace(cfg, t) && k < |t| && LeavesLine(t[k], w)
    ensures forall m | 0 <= m < k :: !LeavesLine(t[m], w)
  {
    MentionsInvoked(cfg, t, k, w);
    var _, j, _ := CallHistory(cfg, t, w);
    assert Decides(t[k], w);
    forall m | 0 <= m < k ensures !LeavesLine(t[m], w) {
      assert LeavesLine(t[m], w) ==> Decides(t[m], w);
    }
  }

  lemma ServedFirst(cfg: Config, s: Spec, e: Event, x: nat, y: nat)
    requires s.Coherent() && LineSound(s) && e.HandOff? && Legal(cfg, s, e)
    requires x < y < |s.line| && s.line[y].id == e.pop
    ensures e.item.channel !in s.line[x].channels
  {
  }

  /** First come, first served: while a consumer that registered before `w`
      is still in the line, `w` is handed no message that the other wants. */
  lemma FirstComeFirstServed(cfg: Config, t: Trace, iv: nat, rv: nat, rw: nat, k: nat)
    requires LegalTrace(cfg, t) && iv < rv < rw < k < |t|
    requires t[iv].Invoke? && t[rv] == Register(t[iv].id) && t[iv].op.Pop?
    requires t[rw].Register? && t[k].HandOff? && t[k].pop == t[rw].id
    requires forall m | rv < m < k :: !LeavesLine(t[m], t[rv].id)
    ensures t[k].item.channel !in t[iv].op.channels
  {
    var u, w := t[..k], t[rw].id;
    Prefix(cfg, t, k);
    LeavesOnce(cfg, t, k, w);
    var x, y := LineOrder(cfg, u, rv, rw);
    LineChannels(cfg, u, iv, x);
    ServedFirst(cfg, After(cfg, u), t[k], x, y) by {
      LineSoundTrace(cfg, u);
    }
  }

  /** No newcomer takes a message from the queue of a channel for which a
      consumer that registered earlier still waits. */
  lemma NoOvertaking(cfg: Config, t: Trace, iv: nat, rv: nat, k: nat)
    requires LegalTrace(cfg, t) && iv < rv < k < |t| && t[k].Dequeue?
    requires t[iv].Invoke? && t[rv] == Register(t[iv].id) && t[iv].op.Pop?
    requires forall m | rv < m < k :: !LeavesLine(t[m], t[rv].id)
    ensures t[k].item.channel !in t[iv].op.channels
  {
    var u := t[..k];
    Prefix(cfg, t, k);
    var x := StillInLine(cfg, u, rv);
    LineChannels(cfg, u, iv, x);
    assert After(cfg, u).line[x] in After(cfg, u).line;
  }
}
