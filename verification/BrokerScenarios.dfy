/** What the broker can do, from any state it can be in: anyone may call, calls
    meet, and every call can be brought to its return. */
module BrokerScenarios {
  import opened Types
  import opened BrokerSections
  import opened AtomicQueue
  import opened BrokerRuns
  import opened BrokerInvariants
  import BrokerTheorems

  lemma Open(cfg: Config, s0: State, s: State)
    requires Leads(cfg, s0, s)
    ensures s.b.closes != []
  {
    LeadsReached(cfg, s0, s);
    ReachedInv(cfg, s);
  }

  lemma Known(cfg: Config, s0: State, s: State, i: CallId)
    requires Leads(cfg, s0, s) && i < |s.calls|
    ensures s.b.closes != [] && CallOk(cfg, s.calls, i)
  {
    LeadsReached(cfg, s0, s);
    ReachedInv(cfg, s);
  }

  /** Any call can be made in any reachable state. */
  lemma AnyoneMayCall(cfg: Config, s0: State, s: State, op: Op) returns (s': State)
    requires Leads(cfg, s0, s)
    ensures Leads(cfg, s0, s') && s'.b == s.b
    ensures s'.calls == s.calls + [Call(op, false, Start, None, None)]
  {
    Open(cfg, s0, s);
    s' := LeadsStep(cfg, s0, s, Invoking(op));
  }

  lemma SetLast(calls: seq<Call>, x: Call, y: Call)
    ensures (calls + [x])[|calls| := y] == calls + [y]
  {
  }

  lemma SetLastAndOne(calls: seq<Call>, x: Call, y: Call, w: CallId, z: Call)
    requires w < |calls|
    ensures (calls + [x])[|calls| := y][w := z] == calls[w := z] + [y]
  {
  }

  // ---------- Single steps ----------

  /** From `s` to `s'` no call moves but `i` and `w`, and the broker itself
      stays as it is. */
  predicate OnlyCalls(s: State, s': State, i: CallId, w: CallId) {
    && s'.b == s.b && |s'.calls| == |s.calls|
    && forall j | 0 <= j < |s.calls| && j != i && j != w :: s'.calls[j] == s.calls[j]
  }

  lemma Sends(cfg: Config, s0: State, s: State, i: CallId) returns (s': State)
    requires Leads(cfg, s0, s) && i < |s.calls| && s.calls[i].op.Push? && s.calls[i].pc.PushSending?
    ensures Leads(cfg, s0, s')
    ensures var w := s.calls[i].pc.to;
            && w < |s.calls| && w != i && OnlyCalls(s, s', i, w)
            && s'.calls[i] == s.calls[i].(pc := Finishing(Ok))
            && s'.calls[w] == s.calls[w].(reply := Some(ItemOf(s.calls[i].op)))
  {
    Known(cfg, s0, s, i);
    s' := LeadsStep(cfg, s0, s, Sending(i));
  }

  lemma Receives(cfg: Config, s0: State, s: State, w: CallId) returns (s': State)
    requires Leads(cfg, s0, s) && w < |s.calls| && s.calls[w].reply.Some?
    requires s.calls[w].pc == PopWaiting || s.calls[w].pc == PopMustReceive
    ensures Leads(cfg, s0, s') && OnlyCalls(s, s', w, w)
    ensures s'.calls[w] == s.calls[w].(pc := Finishing(Got(s.calls[w].reply.value)), reply := None)
  {
    Open(cfg, s0, s);
    s' := LeadsStep(cfg, s0, s, if s.calls[w].pc == PopWaiting then Receiving(w) else ReceivingLate(w));
  }

  lemma Returns(cfg: Config, s0: State, s: State, i: CallId) returns (s': State)
    requires Leads(cfg, s0, s) && i < |s.calls| && s.calls[i].pc.Finishing?
    ensures Leads(cfg, s0, s') && OnlyCalls(s, s', i, i)
    ensures s'.calls[i] == s.calls[i].(pc := Done(s.calls[i].pc.result))
  {
    Open(cfg, s0, s);
    s' := LeadsStep(cfg, s0, s, Returning(i));
  }

  /** The context of a waiting pop ends, and the pop goes for the lock. */
  lemma GivesUp(cfg: Config, s0: State, s: State, w: CallId) returns (s': State)
    requires Leads(cfg, s0, s) && w < |s.calls| && s.calls[w].pc == PopWaiting
    ensures Leads(cfg, s0, s') && OnlyCalls(s, s', w, w)
    ensures s'.calls[w] == s.calls[w].(cancelled := true, pc := PopCancelling)
  {
    Open(cfg, s0, s);
    s' := s;
    if !s.calls[w].cancelled {
      s' := LeadsStep(cfg, s0, s', Cancelling(w));
    }
    s' := LeadsStep(cfg, s0, s', PopGivingUp(w));
  }

  lemma Race(cfg: Config, s0: State, s: State, w: CallId)
    requires Leads(cfg, s0, s) && w < |s.calls| && s.calls[w].pc == PopCancelling
    ensures s.b.closes != [] && (CancelSection(s.b, w).1 <==> s.calls[w].helper.None?)
  {
    LeadsReached(cfg, s0, s);
    ReachedInv(cfg, s);
    RemovingCall(cfg, s, w);
  }

  /** A pop whose waiter a push has removed finds that out. */
  lemma LosesRace(cfg: Config, s0: State, s: State, w: CallId) returns (s': State)
    requires Leads(cfg, s0, s) && w < |s.calls| && s.calls[w].pc == PopCancelling && s.calls[w].helper.Some?
    ensures Leads(cfg, s0, s') && OnlyCalls(s, s', w, w)
    ensures s'.calls[w] == s.calls[w].(pc := PopMustReceive)
  {
    Race(cfg, s0, s, w);
    s' := LeadsStep(cfg, s0, s, Removing(w));
  }

  // ---------- Hand-off ----------

  /** `k` is the first in line for `c`, in its select on `reply`. */
  predicate FirstInLine(s: State, k: nat, c: Channel) {
    && k < |s.b.waiters| && c in s.b.waiters[k].channels
    && (forall j | 0 <= j < k :: c !in s.b.waiters[j].channels)
    && s.b.waiters[k].id < |s.calls| && s.calls[s.b.waiters[k].id].pc == PopWaiting
  }

  lemma FirstIsWaiting(cfg: Config, s: State, k: nat, c: Channel)
    requires Reached(cfg, s) && FirstInLine(s, k, c)
    ensures var w := s.b.waiters[k].id;
            s.calls[w].op.Pop? && s.calls[w].helper.None? && s.calls[w].reply.None?
  {
    ReachedInv(cfg, s);
    assert CallOk(cfg, s.calls, s.b.waiters[k].id);
  }

  /** The push section of call `n` when `k` is the first in line. */
  lemma SectionHandsOver(cfg: Config, s: State, n: CallId, k: nat)
    requires s.b.closes != [] && n < |s.calls| && s.calls[n].op.Push?
    requires FirstInLine(s, k, s.calls[n].op.channel) && s.b.waiters[k].id != n
    ensures var w, s' := s.b.waiters[k].id, DoPush(cfg, s, n);
            && s'.b == s.b.(waiters := s.b.waiters[..k] + s.b.waiters[k + 1..])
            && s'.calls == s.calls[n := s.calls[n].(pc := PushSending(w))][w := s.calls[w].(helper := Some(n))]
  {
    assert FirstMatch(s.b.waiters, s.calls[n].op.channel) == k;
  }

  /** A push of `p` to `c` arrives and removes the first in line. */
  lemma PushMeetsWaiter(cfg: Config, s: State, k: nat, c: Channel, p: Payload) returns (s': State)
    requires Reached(cfg, s) && FirstInLine(s, k, c)
    requires ValidChannel(c) && |p| <= cfg.maxBytes
    ensures var w := s.b.waiters[k].id;
            && Leads(cfg, s, s') && s'.b == s.b.(waiters := s.b.waiters[..k] + s.b.waiters[k + 1..])
            && s'.calls == s.calls[w := s.calls[w].(helper := Some(|s.calls|))]
                           + [Call(Push(c, p), false, PushSending(w), None, None)]
            && s.calls[w].reply.None? && s.calls[w].op.Pop?
  {
    FirstIsWaiting(cfg, s, k, c);
    LeadsSelf(cfg, s);
    s' := AnyoneMayCall(cfg, s, s, Push(c, p));
    Open(cfg, s, s');
    SectionHandsOver(cfg, s', |s.calls|, k);
    var w, x := s.b.waiters[k].id, s'.calls[|s.calls|];
    s' := LeadsStep(cfg, s, s', PushLocked(|s.calls|));
    SetLastAndOne(s.calls, x, x.(pc := PushSending(w)), w, s.calls[w].(helper := Some(|s.calls|)));
  }

  /** The push sends, the pop receives, and both return. */
  lemma Delivers(cfg: Config, s0: State, s: State, n: CallId, w: CallId) returns (s': State)
    requires Leads(cfg, s0, s) && n < |s.calls| && s.calls[n].op.Push? && s.calls[n].pc == PushSending(w)
    requires w < |s.calls| && (s.calls[w].pc == PopWaiting || s.calls[w].pc == PopMustReceive)
    ensures Leads(cfg, s0, s') && n != w && OnlyCalls(s, s', n, w)
    ensures s'.calls[n] == s.calls[n].(pc := Done(Ok))
    ensures s'.calls[w] == s.calls[w].(pc := Done(Got(ItemOf(s.calls[n].op))), reply := None)
  {
    s' := Sends(cfg, s0, s, n);
    s' := Receives(cfg, s0, s', w);
    s' := Returns(cfg, s0, s', n);
    s' := Returns(cfg, s0, s', w);
  }

  /** The push has returned, the pop has returned its message, the waiter is
      gone, and nothing else has changed. */
  predicate HandedOver(s: State, s': State, k: nat, c: Channel, p: Payload)
    requires FirstInLine(s, k, c)
  {
    var w, n := s.b.waiters[k].id, |s.calls|;
    && s'.b == s.b.(waiters := s.b.waiters[..k] + s.b.waiters[k + 1..])
    && |s'.calls| == n + 1
    && s'.calls[n].op == Push(c, p) && s'.calls[n].pc == Done(Ok)
    && s'.calls[w].op == s.calls[w].op && s'.calls[w].pc == Done(Got(Delivery(c, p)))
    && forall j | 0 <= j < n && j != w :: s'.calls[j] == s.calls[j]
  }

  /** A waiting pop is handed the message of a push that arrives, and both
      return. */
  lemma WaiterIsServed(cfg: Config, s: State, k: nat, c: Channel, p: Payload) returns (s': State)
    requires Reached(cfg, s) && FirstInLine(s, k, c)
    requires ValidChannel(c) && |p| <= cfg.maxBytes
    ensures Leads(cfg, s, s') && HandedOver(s, s', k, c, p)
  {
    s' := PushMeetsWaiter(cfg, s, k, c, p);
    s' := Delivers(cfg, s, s', |s.calls|, s.b.waiters[k].id);
  }

  /** The context of a waiting pop ends after a push has removed its waiter:
      the pop loses the race and still returns the message. */
  lemma CancelledWaiterIsServed(cfg: Config, s: State, k: nat, c: Channel, p: Payload) returns (s': State)
    requires Reached(cfg, s) && FirstInLine(s, k, c)
    requires ValidChannel(c) && |p| <= cfg.maxBytes
    ensures Leads(cfg, s, s') && HandedOver(s, s', k, c, p) && s'.calls[s.b.waiters[k].id].cancelled
  {
    var w, n := s.b.waiters[k].id, |s.calls|;
    s' := PushMeetsWaiter(cfg, s, k, c, p);
    s' := GivesUp(cfg, s, s', w);
    s' := LosesRace(cfg, s, s', w);
    s' := Delivers(cfg, s, s', n, w);
  }

  // ---------- Queued messages ----------

  lemma SignalsAndQueues(cfg: Config, s: State)
    requires Reached(cfg, s)
    ensures SignalsOk(s.b) && forall c | c in s.b.queues :: s.b.queues[c] != []
  {
    ReachedInv(cfg, s);
  }

  /** The pop section of call `n` when its k-th channel is the first that has a
      message. */
  lemma SectionTakes(s: State, n: CallId, k: nat)
    requires SignalsOk(s.b) && n < |s.calls| && s.calls[n].op.Pop?
    requires k < |s.calls[n].op.channels| && s.calls[n].op.channels[k] in s.b.queues
    requires s.b.queues[s.calls[n].op.channels[k]] != []
    requires forall j | 0 <= j < k :: s.calls[n].op.channels[j] !in s.b.queues
    ensures var c, s' := s.calls[n].op.channels[k], DoPop(s, n); var q := s.b.queues[c];
            && s'.calls == s.calls[n := s.calls[n].(pc := Finishing(Got(Delivery(c, q[0]))))]
            && s'.b.waiters == s.b.waiters && s'.b.queuedBytes == s.b.queuedBytes - |q[0]|
            && s'.b.queues == (if |q| == 1 then s.b.queues - {c} else s.b.queues[c := q[1..]])
            && |s'.b.closes| == |s.b.closes| + 1 && forall j | 0 <= j < |s.b.closes| :: s'.b.closes[j] == 1
  {
    assert FirstQueued(s.b.queues, s.calls[n].op.channels) == k;
  }

  /** A pop arrives and takes the head of the first channel it asks for that
      has a message. */
  lemma PopTakes(cfg: Config, s: State, cs: seq<Channel>, k: nat) returns (s': State)
    requires Reached(cfg, s) && (forall j | 0 <= j < |cs| :: ValidChannel(cs[j]))
    requires k < |cs| && cs[k] in s.b.queues && forall j | 0 <= j < k :: cs[j] !in s.b.queues
    ensures var q := s.b.queues[cs[k]];
            && Leads(cfg, s, s') && q != [] && |s'.calls| == |s.calls| + 1
            && s'.calls == s.calls + [Call(Pop(cs), false, Finishing(Got(Delivery(cs[k], q[0]))), None, None)]
            && s'.b.waiters == s.b.waiters && s'.b.queuedBytes == s.b.queuedBytes - |q[0]|
            && s'.b.queues == (if |q| == 1 then s.b.queues - {cs[k]} else s.b.queues[cs[k] := q[1..]])
            && |s'.b.closes| == |s.b.closes| + 1 && forall j | 0 <= j < |s.b.closes| :: s'.b.closes[j] == 1
  {
    SignalsAndQueues(cfg, s);
    LeadsSelf(cfg, s);
    s' := AnyoneMayCall(cfg, s, s, Pop(cs));
    SectionTakes(s', |s.calls|, k);
    s' := LeadsStep(cfg, s, s', PopLocked(|s.calls|));
  }

  /** A queued message is popped. */
  lemma QueuedIsPopped(cfg: Config, s: State, cs: seq<Channel>, k: nat) returns (s': State)
    requires Reached(cfg, s) && (forall j | 0 <= j < |cs| :: ValidChannel(cs[j]))
    requires k < |cs| && cs[k] in s.b.queues && forall j | 0 <= j < k :: cs[j] !in s.b.queues
    ensures var q, n := s.b.queues[cs[k]], |s.calls|;
            && Leads(cfg, s, s') && q != [] && |s'.calls| == n + 1
            && s'.calls[n].op == Pop(cs) && s'.calls[n].pc == Done(Got(Delivery(cs[k], q[0])))
            && (forall j | 0 <= j < n :: s'.calls[j] == s.calls[j])
            && s'.b.queues == (if |q| == 1 then s.b.queues - {cs[k]} else s.b.queues[cs[k] := q[1..]])
  {
    s' := PopTakes(cfg, s, cs, k);
    s' := Returns(cfg, s, s', |s.calls|);
  }
  // ---------- Waiting, queueing, blocking ----------

  predicate NoneWants(s: State, c: Channel) {
    forall k | 0 <= k < |s.b.waiters| :: c !in s.b.waiters[k].channels
  }

  lemma SectionRegisters(s: State, n: CallId)
    requires s.b.closes != [] && n < |s.calls| && s.calls[n].op.Pop? && !s.calls[n].cancelled
    requires forall j | 0 <= j < |s.calls[n].op.channels| :: s.calls[n].op.channels[j] !in s.b.queues
    ensures DoPop(s, n).b == s.b.(waiters := s.b.waiters + [Waiter(n, s.calls[n].op.channels)])
    ensures DoPop(s, n).calls == s.calls[n := s.calls[n].(pc := PopWaiting)]
  {
    assert FirstQueued(s.b.queues, s.calls[n].op.channels) == |s.calls[n].op.channels|;
  }

  /** A pop that arrives and finds all its channels empty waits, last in line. */
  lemma PopWaits(cfg: Config, s: State, cs: seq<Channel>) returns (s': State)
    requires Reached(cfg, s) && cs != []
    requires forall j | 0 <= j < |cs| :: ValidChannel(cs[j]) && cs[j] !in s.b.queues
    ensures Leads(cfg, s, s') && s'.b == s.b.(waiters := s.b.waiters + [Waiter(|s.calls|, cs)])
    ensures s'.calls == s.calls + [Call(Pop(cs), false, PopWaiting, None, None)]
  {
    LeadsSelf(cfg, s);
    s' := AnyoneMayCall(cfg, s, s, Pop(cs));
    Open(cfg, s, s');
    SectionRegisters(s', |s.calls|);
    s' := LeadsStep(cfg, s, s', PopLocked(|s.calls|));
  }

  function Appended(q: Queues, c: Channel, p: Payload): Queues {
    q[c := (if c in q then q[c] else []) + [p]]
  }

  /** The push section of call `n` when nobody wants its channel. */
  lemma SectionAppendsOrBlocks(cfg: Config, s: State, n: CallId)
    requires s.b.closes != [] && n < |s.calls| && s.calls[n].op.Push? && NoneWants(s, s.calls[n].op.channel)
    ensures var op, s' := s.calls[n].op, DoPush(cfg, s, n);
            if s.b.queuedBytes + |op.payload| <= cfg.cap then
              && s'.b == s.b.(queues := Appended(s.b.queues, op.channel, op.payload),
                              queuedBytes := s.b.queuedBytes + |op.payload|)
              && s'.calls == s.calls[n := s.calls[n].(pc := Finishing(Ok))]
            else
              s'.b == s.b && s'.calls == s.calls[n := s.calls[n].(pc := PushBlocked(|s.b.closes| - 1))]
  {
    assert FirstMatch(s.b.waiters, s.calls[n].op.channel) == |s.b.waiters|;
  }

  lemma PushAppends(cfg: Config, s: State, c: Channel, p: Payload) returns (s': State)
    requires Reached(cfg, s) && NoneWants(s, c) && ValidChannel(c) && |p| <= cfg.maxBytes
    requires s.b.queuedBytes + |p| <= cfg.cap
    ensures Leads(cfg, s, s')
    ensures s'.b == s.b.(queues := Appended(s.b.queues, c, p), queuedBytes := s.b.queuedBytes + |p|)
    ensures s'.calls == s.calls + [Call(Push(c, p), false, Finishing(Ok), None, None)]
  {
    LeadsSelf(cfg, s);
    s' := AnyoneMayCall(cfg, s, s, Push(c, p));
    Open(cfg, s, s');
    SectionAppendsOrBlocks(cfg, s', |s.calls|);
    var x := s'.calls[|s.calls|];
    s' := LeadsStep(cfg, s, s', PushLocked(|s.calls|));
    SetLast(s.calls, x, x.(pc := Finishing(Ok)));
  }

  /** A push that arrives, is wanted by nobody and fits is queued last. */
  lemma PushIsQueued(cfg: Config, s: State, c: Channel, p: Payload) returns (s': State)
    requires Reached(cfg, s) && NoneWants(s, c) && ValidChannel(c) && |p| <= cfg.maxBytes
    requires s.b.queuedBytes + |p| <= cfg.cap
    ensures Leads(cfg, s, s')
    ensures s'.b == s.b.(queues := Appended(s.b.queues, c, p), queuedBytes := s.b.queuedBytes + |p|)
    ensures s'.calls == s.calls + [Call(Push(c, p), false, Done(Ok), None, None)]
  {
    s' := PushAppends(cfg, s, c, p);
    s' := Returns(cfg, s, s', |s.calls|);
  }

  /** One that does not fit blocks on the current signal. */
  lemma PushBlocks(cfg: Config, s: State, c: Channel, p: Payload) returns (s': State)
    requires Reached(cfg, s) && NoneWants(s, c) && ValidChannel(c) && |p| <= cfg.maxBytes
    requires s.b.queuedBytes + |p| > cfg.cap
    ensures Leads(cfg, s, s') && s'.b == s.b && s.b.closes != []
    ensures s'.calls == s.calls + [Call(Push(c, p), false, PushBlocked(|s.b.closes| - 1), None, None)]
  {
    LeadsSelf(cfg, s);
    s' := AnyoneMayCall(cfg, s, s, Push(c, p));
    Open(cfg, s, s');
    SectionAppendsOrBlocks(cfg, s', |s.calls|);
    s' := LeadsStep(cfg, s, s', PushLocked(|s.calls|));
  }

  /** A blocked push that is woken appends when its payload fits by then. */
  lemma WokenAppends(cfg: Config, s0: State, s: State, i: CallId) returns (s': State)
    requires Leads(cfg, s0, s) && i < |s.calls| && s.calls[i].pc.PushBlocked? && s.calls[i].op.Push?
    requires s.calls[i].pc.signal < |s.b.closes| && s.b.closes[s.calls[i].pc.signal] == 1
    requires NoneWants(s, s.calls[i].op.channel) && s.b.queuedBytes + |s.calls[i].op.payload| <= cfg.cap
    ensures Leads(cfg, s0, s') && |s'.calls| == |s.calls|
    ensures s'.calls[i] == s.calls[i].(pc := Done(Ok))
    ensures forall j | 0 <= j < |s.calls| && j != i :: s'.calls[j] == s.calls[j]
    ensures s'.b.queues == Appended(s.b.queues, s.calls[i].op.channel, s.calls[i].op.payload)
  {
    Known(cfg, s0, s, i);
    s' := LeadsStep(cfg, s0, s, Waking(i));
    SectionAppendsOrBlocks(cfg, s', i);
    s' := LeadsStep(cfg, s0, s', PushLocked(i));
    s' := Returns(cfg, s0, s', i);
  }

  /** A pop arrives, takes a message, and so wakes a blocked push, which then
      appends: both return. */
  lemma BlockedIsWoken(cfg: Config, s: State, i: CallId, d: Channel) returns (s': State)
    requires Reached(cfg, s) && i < |s.calls| && s.calls[i].pc.PushBlocked? && s.calls[i].op.Push?
    requires NoneWants(s, s.calls[i].op.channel) && d in s.b.queues && s.b.queues[d] != []
    requires s.b.queuedBytes - |s.b.queues[d][0]| + |s.calls[i].op.payload| <= cfg.cap
    ensures var q, n, op := s.b.queues[d], |s.calls|, s.calls[i].op;
            && Leads(cfg, s, s') && |s'.calls| == n + 1
            && s'.calls[i].op == op && s'.calls[i].pc == Done(Ok)
            && s'.calls[n].op == Pop([d]) && s'.calls[n].pc == Done(Got(Delivery(d, q[0])))
            && s'.b.queues == Appended(if |q| == 1 then s.b.queues - {d} else s.b.queues[d := q[1..]],
                                       op.channel, op.payload)
  {
    ReachedInv(cfg, s);
    BrokerTheorems.QueuedAreValid(cfg, s, d, 0);
    s' := PopTakes(cfg, s, [d], 0);
    s' := WokenAppends(cfg, s, s', i);
    s' := Returns(cfg, s, s', |s.calls|);
  }

  // ---------- From the start ----------

  /** There is a run in which a waiting pop is handed the message of a push. */
  lemma CallsMeet(cfg: Config, c: Channel, p: Payload, cancelled: bool) returns (s: State)
    requires ValidChannel(c) && |p| <= cfg.maxBytes
    ensures Reached(cfg, s) && |s.calls| == 2
    ensures s.calls[0].op == Pop([c]) && s.calls[0].pc == Done(Got(Delivery(c, p)))
    ensures s.calls[1].op == Push(c, p) && s.calls[1].pc == Done(Ok)
    ensures cancelled ==> s.calls[0].cancelled
  {
    StartIsReached(cfg);
    var s1 := PopWaits(cfg, INITIAL_STATE, [c]);
    LeadsReached(cfg, INITIAL_STATE, s1);
    if cancelled {
      s := CancelledWaiterIsServed(cfg, s1, 0, c, p);
    } else {
      s := WaiterIsServed(cfg, s1, 0, c, p);
    }
    LeadsReached(cfg, s1, s);
  }

  /** One queued message, and a push that does not fit beside it. */
  predicate OneBlocked(s: State, c: Channel, p: Payload, d: Channel, q: Payload) {
    && s.b.queues == map[c := [p]] && s.b.queuedBytes == |p| && s.b.waiters == []
    && |s.calls| == 2
    && s.calls[0].op == Push(c, p) && s.calls[0].pc == Done(Ok)
    && s.calls[1].op == Push(d, q) && s.calls[1].pc.PushBlocked?
  }

  lemma FirstIsQueued(cfg: Config, c: Channel, p: Payload) returns (s: State)
    requires ValidChannel(c) && |p| <= cfg.maxBytes && |p| <= cfg.cap
    ensures Reached(cfg, s) && s.calls == [Call(Push(c, p), false, Done(Ok), None, None)]
    ensures s.b == Shared(map[c := [p]], [], |p|, [0])
  {
    StartIsReached(cfg);
    s := PushIsQueued(cfg, INITIAL_STATE, c, p);
    LeadsReached(cfg, INITIAL_STATE, s);
    assert [] + [p] == [p];
  }

  lemma PushGetsBlocked(cfg: Config, c: Channel, p: Payload, d: Channel, q: Payload) returns (s: State)
    requires ValidChannel(c) && |p| <= cfg.maxBytes && |p| <= cfg.cap
    requires ValidChannel(d) && |q| <= cfg.maxBytes && cfg.cap < |p| + |q|
    ensures Reached(cfg, s) && OneBlocked(s, c, p, d, q)
  {
    var s1 := FirstIsQueued(cfg, c, p);
    s := PushBlocks(cfg, s1, d, q);
    LeadsReached(cfg, s1, s);
  }

  lemma EmptiedThenAppended(c: Channel, p: Payload, d: Channel, q: Payload)
    ensures Appended(map[c := [p]] - {c}, d, q) == map[d := [q]]
  {
    assert map[c := [p]] - {c} == map[];
    assert [] + [q] == [q];
  }

  /** There is a run in which a push blocks, is woken by a pop and appends. */
  lemma BlockedPushGetsIn(cfg: Config, c: Channel, p: Payload, d: Channel, q: Payload) returns (mid: State, s: State)
    requires ValidChannel(c) && |p| <= cfg.maxBytes && |p| <= cfg.cap
    requires ValidChannel(d) && |q| <= cfg.maxBytes && |q| <= cfg.cap < |p| + |q|
    ensures Reached(cfg, mid) && OneBlocked(mid, c, p, d, q) && Leads(cfg, mid, s)
    ensures |s.calls| == 3 && s.b.queues == map[d := [q]]
    ensures s.calls[1].op == Push(d, q) && s.calls[1].pc == Done(Ok)
    ensures s.calls[2].op == Pop([c]) && s.calls[2].pc == Done(Got(Delivery(c, p)))
  {
    mid := PushGetsBlocked(cfg, c, p, d, q);
    s := BlockedIsWoken(cfg, mid, 1, c);
    EmptiedThenAppended(c, p, d, q);
  }

  // ---------- Every call can be finished ----------

  predicate Finished(s: State, s': State, i: CallId)
    requires i < |s.calls|
  {
    |s'.calls| == |s.calls| && s'.calls[i].op == s.calls[i].op && s'.calls[i].pc.Done?
  }

  lemma FinishReceiving(cfg: Config, s0: State, s: State, i: CallId) returns (s': State)
    requires Leads(cfg, s0, s) && i < |s.calls| && s.calls[i].pc == PopMustReceive
    ensures Leads(cfg, s0, s') && Finished(s, s', i)
  {
    Known(cfg, s0, s, i);
    s' := s;
    if s.calls[i].reply.None? {
      s' := Sends(cfg, s0, s, s.calls[i].helper.value);
    }
    s' := Receives(cfg, s0, s', i);
    s' := Returns(cfg, s0, s', i);
  }

  lemma FinishSelecting(cfg: Config, s0: State, s: State, i: CallId) returns (s': State)
    requires Leads(cfg, s0, s) && i < |s.calls| && s.calls[i].pc == PopRemoved
    ensures Leads(cfg, s0, s') && Finished(s, s', i)
    ensures s'.calls[i].pc == Done(Timeout)
  {
    Known(cfg, s0, s, i);
    s' := LeadsStep(cfg, s0, s, Selecting(i));
    s' := Returns(cfg, s0, s', i);
  }

  lemma FinishRemoving(cfg: Config, s0: State, s: State, i: CallId) returns (s': State)
    requires Leads(cfg, s0, s) && i < |s.calls| && s.calls[i].pc == PopCancelling
    ensures Leads(cfg, s0, s') && Finished(s, s', i)
    ensures s.calls[i].helper.None? ==> s'.calls[i].pc == Done(Timeout)
  {
    Race(cfg, s0, s, i);
    s' := LeadsStep(cfg, s0, s, Removing(i));
    if s'.calls[i].pc == PopMustReceive {
      s' := FinishReceiving(cfg, s0, s', i);
    } else {
      s' := FinishSelecting(cfg, s0, s', i);
    }
  }

  lemma FinishWaiting(cfg: Config, s0: State, s: State, i: CallId) returns (s': State)
    requires Leads(cfg, s0, s) && i < |s.calls| && s.calls[i].pc == PopWaiting
    ensures Leads(cfg, s0, s') && Finished(s, s', i)
    ensures s.calls[i].helper.None? ==> s'.calls[i].pc == Done(Timeout)
  {
    s' := GivesUp(cfg, s0, s, i);
    s' := FinishRemoving(cfg, s0, s', i);
  }

  lemma FinishBlocked(cfg: Config, s0: State, s: State, i: CallId) returns (s': State)
    requires Leads(cfg, s0, s) && i < |s.calls| && s.calls[i].pc.PushBlocked?
    ensures Leads(cfg, s0, s') && Finished(s, s', i)
    ensures s'.calls[i].pc == Done(Timeout)
  {
    Open(cfg, s0, s);
    s' := s;
    if !s.calls[i].cancelled {
      s' := LeadsStep(cfg, s0, s', Cancelling(i));
    }
    s' := LeadsStep(cfg, s0, s', PushGivingUp(i));
    s' := Returns(cfg, s0, s', i);
  }

  /** A push after its section: it has its result, must send, or is blocked. */
  lemma FinishPush(cfg: Config, s0: State, s: State, i: CallId) returns (s': State)
    requires Leads(cfg, s0, s) && i < |s.calls| && s.calls[i].op.Push?
    requires s.calls[i].pc.Finishing? || s.calls[i].pc.PushSending? || s.calls[i].pc.PushBlocked?
    ensures Leads(cfg, s0, s') && Finished(s, s', i)
  {
    s' := s;
    if s.calls[i].pc.PushBlocked? {
      s' := FinishBlocked(cfg, s0, s, i);
    } else {
      if s.calls[i].pc.PushSending? {
        s' := Sends(cfg, s0, s, i);
      }
      s' := Returns(cfg, s0, s', i);
    }
  }

  lemma FinishLocked(cfg: Config, s0: State, s: State, i: CallId) returns (s': State)
    requires Leads(cfg, s0, s) && i < |s.calls| && AtPushLock(s.calls[i]) && ValidOp(cfg, s.calls[i].op)
    ensures Leads(cfg, s0, s') && Finished(s, s', i)
  {
    Open(cfg, s0, s);
    s' := LeadsStep(cfg, s0, s, PushLocked(i));
    s' := FinishPush(cfg, s0, s', i);
  }

  lemma FinishPopStart(cfg: Config, s0: State, s: State, i: CallId) returns (s': State)
    requires Leads(cfg, s0, s) && i < |s.calls| && s.calls[i].op.Pop? && s.calls[i].pc == Start
    requires ValidOp(cfg, s.calls[i].op)
    ensures Leads(cfg, s0, s') && Finished(s, s', i)
  {
    Open(cfg, s0, s);
    s' := LeadsStep(cfg, s0, s, PopLocked(i));
    if s'.calls[i].pc == PopWaiting {
      s' := FinishWaiting(cfg, s0, s', i);
    } else {
      s' := Returns(cfg, s0, s', i);
    }
  }

  lemma FinishRejected(cfg: Config, s0: State, s: State, i: CallId) returns (s': State)
    requires Leads(cfg, s0, s) && i < |s.calls| && s.calls[i].pc == Start && !ValidOp(cfg, s.calls[i].op)
    ensures Leads(cfg, s0, s') && Finished(s, s', i)
    ensures s'.calls[i].pc == Done(Rejected)
  {
    Open(cfg, s0, s);
    s' := LeadsStep(cfg, s0, s, Rejecting(i));
    s' := Returns(cfg, s0, s', i);
  }

  /** Whatever state the broker is in, every call can be brought to its return:
      nothing is ever stuck for good. */
  lemma EveryCallCanFinish(cfg: Config, s: State, i: CallId) returns (s': State)
    requires Reached(cfg, s) && i < |s.calls|
    ensures Leads(cfg, s, s') && Finished(s, s', i)
  {
    ReachedInv(cfg, s);
    assert CallOk(cfg, s.calls, i);
    LeadsSelf(cfg, s);
    var c := s.calls[i];
    s' := s;
    match c.pc
    case Start =>
      if !ValidOp(cfg, c.op) {
        s' := FinishRejected(cfg, s, s, i);
      } else if c.op.Push? {
        s' := FinishLocked(cfg, s, s, i);
      } else {
        s' := FinishPopStart(cfg, s, s, i);
      }
    case PushBlocked(_) => s' := FinishBlocked(cfg, s, s, i);
    case PushRetry => s' := FinishLocked(cfg, s, s, i);
    case PushSending(_) => s' := FinishPush(cfg, s, s, i);
    case PopWaiting => s' := FinishWaiting(cfg, s, s, i);
    case PopCancelling => s' := FinishRemoving(cfg, s, s, i);
    case PopMustReceive => s' := FinishReceiving(cfg, s, s, i);
    case PopRemoved => s' := FinishSelecting(cfg, s, s, i);
    case Finishing(_) => s' := Returns(cfg, s, s, i);
    case Done(_) =>
  }

  /** A call that stands alone before a broker in its first state. */
  lemma ArrivesFirst(cfg: Config, op: Op) returns (s: State)
    ensures Leads(cfg, INITIAL_STATE, s) && s.b == EMPTY_BROKER
    ensures s.calls == [Call(op, false, Start, None, None)]
  {
    StartIsReached(cfg);
    LeadsSelf(cfg, INITIAL_STATE);
    s := AnyoneMayCall(cfg, INITIAL_STATE, INITIAL_STATE, op);
  }

  /** Every call can return: alone, it is rejected for its arguments, succeeds
      as a push that fits, or times out when its context ends. */
  lemma EveryCallCanReturn(cfg: Config, op: Op) returns (s: State)
    ensures Reached(cfg, s) && |s.calls| == 1 && s.calls[0].op == op
    ensures s.calls[0].pc ==
              match op
              case Push(c, p) =>
                if !ValidChannel(c) || |p| > cfg.maxBytes then Done(Rejected)
                else if |p| <= cfg.cap then Done(Ok) else Done(Timeout)
              case Pop(cs) =>
                if cs == [] || exists c :: c in cs && !ValidChannel(c) then Done(Rejected) else Done(Timeout)
  {
    var s0 := ArrivesFirst(cfg, op);
    if !ValidOp(cfg, op) {
      s := FinishRejected(cfg, INITIAL_STATE, s0, 0);
    } else {
      StartIsReached(cfg);
      match op
      case Push(c, p) =>
        if |p| <= cfg.cap {
          s := PushIsQueued(cfg, INITIAL_STATE, c, p);
        } else {
          var s1 := PushBlocks(cfg, INITIAL_STATE, c, p);
          s := FinishBlocked(cfg, INITIAL_STATE, s1, 0);
        }
      case Pop(cs) =>
        var s1 := PopWaits(cfg, INITIAL_STATE, cs);
        s := FinishWaiting(cfg, INITIAL_STATE, s1, 0);
    }
    LeadsReached(cfg, INITIAL_STATE, s);
  }
}
