/** What holds in every reachable state of the broker. */
module BrokerTheorems {
  import opened Types
  import opened BrokerSections
  import opened AtomicQueue
  import opened Linearisation
  import opened BrokerRuns
  import opened BrokerInvariants
  import opened BrokerRefinement

  // ---------- Linearisability ----------

  /** Every run is linearisable: its deciding events, in the order in which
      they happened, are a legal history of the atomic queue; each lies within
      its call and gives its result; and calls that do not overlap take effect
      in the order in which they were made. */
  lemma RunIsLinearisable(cfg: Config, s: State)
    requires Reached(cfg, s)
    ensures LegalTrace(cfg, s.trace)
    ensures ResultsDecided(s.trace) && KeepsRealTime(s.trace)
  {
    ReachedRefines(cfg, s);
    LegalTraceIsLinearisable(cfg, s.trace);
  }

  // ---------- Exactly once ----------

  /** Where a message can be once it has left its queue: the result of a pop,
      a reply buffer, or the hands of a push between unlock and send. */
  datatype Place = Taken | Buffered | InHand

  /** How often `d` stands at `place` of call `c`. */
  function HeldBy(c: Call, place: Place, d: Delivery): nat {
    match place
    case Taken => if c.op.Pop? && HasResult(c.pc) && c.pc.result == Got(d) then 1 else 0
    case Buffered => if c.reply == Some(d) then 1 else 0
    case InHand => if c.op.Push? && c.pc.PushSending? && ItemOf(c.op) == d then 1 else 0
  }

  function Held(calls: seq<Call>, place: Place, d: Delivery): nat {
    if calls == [] then 0 else Held(Init(calls), place, d) + HeldBy(Last(calls), place, d)
  }

  function HeldAny(c: Call, d: Delivery): nat {
    HeldBy(c, Taken, d) + HeldBy(c, Buffered, d) + HeldBy(c, InHand, d)
  }

  function HeldTotal(calls: seq<Call>, d: Delivery): nat {
    Held(calls, Taken, d) + Held(calls, Buffered, d) + Held(calls, InHand, d)
  }

  lemma {:induction false} HeldSet(calls: seq<Call>, i: nat, c: Call, place: Place, d: Delivery)
    requires i < |calls|
    ensures Held(calls[i := c], place, d) == Held(calls, place, d) - HeldBy(calls[i], place, d) + HeldBy(c, place, d)
    decreases |calls|
  {
    if i == |calls| - 1 {
      assert Init(calls[i := c]) == Init(calls);
    } else {
      HeldSet(Init(calls), i, c, place, d);
      assert Init(calls[i := c]) == Init(calls)[i := c];
    }
  }

  lemma HeldTotalSet(calls: seq<Call>, i: nat, c: Call, d: Delivery)
    requires i < |calls|
    ensures HeldTotal(calls[i := c], d) == HeldTotal(calls, d) - HeldAny(calls[i], d) + HeldAny(c, d)
  {
    HeldSet(calls, i, c, Taken, d);
    HeldSet(calls, i, c, Buffered, d);
    HeldSet(calls, i, c, InHand, d);
  }

  function Count(s: seq<Payload>, p: Payload): nat {
    if s == [] then 0 else Count(Init(s), p) + if Last(s) == p then 1 else 0
  }

  lemma {:induction false} CountConcat(a: seq<Payload>, b: seq<Payload>, p: Payload)
    ensures Count(a + b, p) == Count(a, p) + Count(b, p)
    decreases |b|
  {
    if b == [] {
      assert a + b == a;
    } else {
      CountConcat(a, Init(b), p);
      assert Init(a + b) == a + Init(b);
    }
  }

  /** How often the message `d` was accepted, and how often it was assigned. */
  function TimesAccepted(t: Trace, d: Delivery): nat {
    Count(Payloads(Pushed(t, d.channel)), d.payload)
  }

  function TimesAssigned(t: Trace, d: Delivery): nat {
    Count(Payloads(Popped(t, d.channel)), d.payload)
  }

  function AssignedBy(e: Event, d: Delivery): nat {
    if (e.Dequeue? || e.HandOff?) && e.item == d then 1 else 0
  }

  lemma AssignedSnoc(t: Trace, e: Event, d: Delivery)
    ensures TimesAssigned(t + [e], d) == TimesAssigned(t, d) + AssignedBy(e, d)
  {
    assert Init(t + [e]) == t;
    var before, more := Payloads(Popped(t, d.channel)), Payloads(PoppedBy(e, d.channel));
    assert Payloads(Popped(t + [e], d.channel)) == before + more;
    CountConcat(before, more, d.payload);
    assert more != [] ==> Init(more) == [] && Last(more) == e.item.payload;
  }

  /** Every assigned message is in exactly one place. */
  predicate Conserved(s: State, d: Delivery) {
    TimesAssigned(s.trace, d) == HeldTotal(s.calls, d)
  }

  /** Call `i` takes a silent step that moves no message. */
  lemma ConservedSilent(s: State, s': State, i: CallId, c: Call, d: Delivery)
    requires i < |s.calls| && Conserved(s, d)
    requires s'.trace == s.trace && s'.calls == s.calls[i := c] && HeldAny(c, d) == HeldAny(s.calls[i], d)
    ensures Conserved(s', d)
  {
    HeldTotalSet(s.calls, i, c, d);
  }

  /** Call `i` moves, and its event assigns what it now holds in addition. */
  lemma ConservedLogged(s: State, s': State, i: CallId, c: Call, e: Event, d: Delivery)
    requires i < |s.calls| && Conserved(s, d)
    requires s'.trace == s.trace + [e] && s'.calls == s.calls[i := c]
    requires HeldAny(c, d) == HeldAny(s.calls[i], d) + AssignedBy(e, d)
    ensures Conserved(s', d)
  {
    AssignedSnoc(s.trace, e, d);
    HeldTotalSet(s.calls, i, c, d);
  }

  /** No message is in the hands or in the result of a call at `pc`. */
  predicate EmptyHanded(pc: Pc) {
    !pc.PushSending? && (HasResult(pc) ==> !pc.result.Got?)
  }

  lemma EmptyHandedMove(c: Call, c': Call, d: Delivery)
    requires EmptyHanded(c.pc) && EmptyHanded(c'.pc) && c'.op == c.op && c'.reply == c.reply
    ensures HeldAny(c', d) == HeldAny(c, d)
  {
  }

  lemma ConservedHandOff(cfg: Config, s: State, i: CallId, k: nat, d: Delivery)
    requires SignalsOk(s.b) && ListOk(s) && i < |s.calls| && AtPushLock(s.calls[i]) && Conserved(s, d)
    requires k == FirstMatch(s.b.waiters, s.calls[i].op.channel) < |s.b.waiters|
    ensures Conserved(DoPush(cfg, s, i), d)
  {
    var w := s.b.waiters[k].id;
    assert IsWaiting(s.calls[w]);
    var c, c' := s.calls[i].(pc := PushSending(w)), s.calls[w].(helper := Some(i));
    var s1 := State(s.b, s.calls[i := c], s.trace + [HandOff(i, w, ItemOf(c.op))]);
    ConservedLogged(s, s1, i, c, HandOff(i, w, ItemOf(c.op)), d);
    assert HeldAny(c', d) == HeldAny(s.calls[w], d);
    ConservedSilent(s1, DoPush(cfg, s, i), w, c', d);
  }

  lemma ConservedPush(cfg: Config, s: State, i: CallId, d: Delivery)
    requires SignalsOk(s.b) && ListOk(s) && i < |s.calls| && AtPushLock(s.calls[i]) && Conserved(s, d)
    ensures Conserved(DoPush(cfg, s, i), d)
  {
    var s', op := DoPush(cfg, s, i), s.calls[i].op;
    var k := FirstMatch(s.b.waiters, op.channel);
    if k < |s.b.waiters| {
      ConservedHandOff(cfg, s, i, k, d);
    } else {
      EmptyHandedMove(s.calls[i], s'.calls[i], d);
      ConservedLogged(s, s', i, s'.calls[i], Last(s'.trace), d);
    }
  }

  lemma ConservedPop(s: State, i: CallId, d: Delivery)
    requires s.b.closes != [] && i < |s.calls| && s.calls[i].op.Pop? && s.calls[i].pc == Start && Conserved(s, d)
    ensures Conserved(DoPop(s, i), d)
  {
    ConservedLogged(s, DoPop(s, i), i, DoPop(s, i).calls[i], PopEvent(s, i), d);
  }

  lemma ConservedSend(s: State, i: CallId, d: Delivery)
    requires i < |s.calls| && s.calls[i].op.Push? && s.calls[i].pc.PushSending? && s.calls[i].pc.to < |s.calls|
    requires s.calls[s.calls[i].pc.to].op.Pop? && s.calls[s.calls[i].pc.to].reply.None?
    requires Conserved(s, d)
    ensures Conserved(DoSend(s, i), d)
  {
    var s', w := DoSend(s, i), s.calls[i].pc.to;
    HeldTotalSet(s.calls, i, s'.calls[i], d);
    HeldTotalSet(s.calls[i := s'.calls[i]], w, s'.calls[w], d);
  }

  lemma ConservedRemove(s: State, i: CallId, d: Delivery)
    requires i < |s.calls| && s.calls[i].pc == PopCancelling && Conserved(s, d)
    ensures Conserved(DoRemove(s, i), d)
  {
    var s' := DoRemove(s, i);
    EmptyHandedMove(s.calls[i], s'.calls[i], d);
    if CancelSection(s.b, i).1 {
      ConservedLogged(s, s', i, s'.calls[i], FoundEmpty(i), d);
    } else {
      ConservedSilent(s, s', i, s'.calls[i], d);
    }
  }

  lemma ConservedInvoke(s: State, op: Op, d: Delivery)
    requires Conserved(s, d)
    ensures TimesAssigned(s.trace + [Invoke(|s.calls|, op)], d)
            == HeldTotal(s.calls + [Call(op, false, Start, None, None)], d)
  {
    AssignedSnoc(s.trace, Invoke(|s.calls|, op), d);
    assert Init(s.calls + [Call(op, false, Start, None, None)]) == s.calls;
  }

  lemma ConservedReceive(cfg: Config, s: State, i: CallId, d: Delivery)
    requires i < |s.calls| && s.calls[i].reply.Some? && CallsOk(cfg, s.calls) && Conserved(s, d)
    requires ExpectsReply(s.calls[i].pc)
    ensures Conserved(Receive(s, i), d)
  {
    assert CallOk(cfg, s.calls, i);
    ConservedSilent(s, Receive(s, i), i, Receive(s, i).calls[i], d);
  }

  /** The end of a context and the return of a call move no message. */
  lemma ConservedNotice(cfg: Config, s: State, a: Action, d: Delivery)
    requires Enabled(cfg, s, a) && Conserved(s, d) && (a.Cancelling? || a.Returning?)
    ensures Conserved(Do(cfg, s, a), d)
  {
    var s' := Do(cfg, s, a);
    var e := if a.Cancelling? then Cancel(a.i) else Return(a.i, s.calls[a.i].pc.result);
    ConservedLogged(s, s', a.i, s'.calls[a.i], e, d);
  }

  lemma ConservedOther(cfg: Config, s: State, a: Action, d: Delivery)
    requires Enabled(cfg, s, a) && CallsOk(cfg, s.calls) && Conserved(s, d)
    requires a.Rejecting? || a.Waking? || a.PushGivingUp? || a.PopGivingUp? || a.Selecting?
    ensures Conserved(Do(cfg, s, a), d)
  {
    var s' := Do(cfg, s, a);
    assert CallOk(cfg, s.calls, a.i);
    EmptyHandedMove(s.calls[a.i], s'.calls[a.i], d);
    ConservedSilent(s, s', a.i, s'.calls[a.i], d);
  }

  lemma ConservedStep(cfg: Config, s: State, a: Action, d: Delivery)
    requires Inv(cfg, s) && Enabled(cfg, s, a) && Conserved(s, d)
    ensures Conserved(Do(cfg, s, a), d)
  {
    match a
    case Invoking(op) => ConservedInvoke(s, op, d);
    case PushLocked(i) => ConservedPush(cfg, s, i, d);
    case PopLocked(i) => ConservedPop(s, i, d);
    case Sending(i) =>
      assert CallOk(cfg, s.calls, i);
      ConservedSend(s, i, d);
    case Removing(i) => ConservedRemove(s, i, d);
    case Receiving(i) => ConservedReceive(cfg, s, i, d);
    case ReceivingLate(i) => ConservedReceive(cfg, s, i, d);
    case Cancelling(_) => ConservedNotice(cfg, s, a, d);
    case Returning(_) => ConservedNotice(cfg, s, a, d);
    case _ => ConservedOther(cfg, s, a, d);
  }

  lemma {:induction false} ConservedRun(cfg: Config, acts: seq<Action>, d: Delivery)
    requires Runs(cfg, acts)
    ensures Conserved(Exec(cfg, acts), d)
    decreases |acts|
  {
    if acts != [] {
      ConservedRun(cfg, Init(acts), d);
      RunKeepsInv(cfg, Init(acts));
      ConservedStep(cfg, Exec(cfg, Init(acts)), Last(acts), d);
    }
  }

  /** FIFO in every reachable state: what was accepted on a channel is what
      was assigned so far followed by the queue. */
  lemma BrokerFifo(cfg: Config, s: State, ch: Channel)
    requires Reached(cfg, s)
    ensures Payloads(Pushed(s.trace, ch)) == Payloads(Popped(s.trace, ch)) + QueueOf(s.b.queues, ch)
  {
    ReachedRefines(cfg, s);
    Fifo(cfg, s.trace, ch);
  }

  /** Exactly once: at any moment, for any message, the number of times it was
      accepted is the number of its copies in the queue, in the hands of a
      push, in a reply buffer and in the result of a pop, taken together. */
  lemma ExactlyOnce(cfg: Config, s: State, d: Delivery)
    requires Reached(cfg, s)
    ensures TimesAccepted(s.trace, d)
            == Count(QueueOf(s.b.queues, d.channel), d.payload)
               + Held(s.calls, InHand, d) + Held(s.calls, Buffered, d) + Held(s.calls, Taken, d)
  {
    BrokerFifo(cfg, s, d.channel);
    CountConcat(Payloads(Popped(s.trace, d.channel)), QueueOf(s.b.queues, d.channel), d.payload);
    var acts :| Runs(cfg, acts) && Exec(cfg, acts) == s;
    ConservedRun(cfg, acts, d);
  }

  /** A push that returned timeout, or was rejected, is nowhere: it is not
      among the accepted messages of any channel. */
  lemma TimedOutPushIsNowhere(cfg: Config, s: State, i: CallId, ch: Channel, p: Payload)
    requires Reached(cfg, s) && i < |s.calls|
    requires s.calls[i].pc in {Done(Timeout), Done(Rejected)}
    ensures Hop(i, p) !in Pushed(s.trace, ch)
  {
    assert Abs(s).status[i] == Finished(s.calls[i].pc.result);
    assert After(cfg, s.trace) == Abs(s) by {
      ReachedRefines(cfg, s);
    }
    AcceptedIff(cfg, s.trace, ch, i, p);
  }

  /** What `Pop` returns is a valid channel it asked for and a payload within
      the per-message cap. */
  lemma DeliveriesAreValid(cfg: Config, s: State, i: CallId, d: Delivery)
    requires Reached(cfg, s) && i < |s.calls| && s.calls[i].pc == Done(Got(d))
    ensures s.calls[i].op.Pop? && d.channel in s.calls[i].op.channels
    ensures ValidChannel(d.channel) && ValidPayload(d.payload, cfg.maxBytes)
  {
    ReachedInv(cfg, s);
    assert CallOk(cfg, s.calls, i);
  }

  lemma ReachedResult(cfg: Config, s: State, i: CallId)
    requires Reached(cfg, s) && i < |s.calls| && s.calls[i].pc.Done?
    ensures LegalTrace(cfg, s.trace) && i < |After(cfg, s.trace).ops|
    ensures After(cfg, s.trace).ops[i] == s.calls[i].op
    ensures After(cfg, s.trace).status[i] == Finished(s.calls[i].pc.result)
    ensures s.calls[i].pc.result.Ok? ==> s.calls[i].op.Push?
  {
    ReachedRefines(cfg, s);
    ReachedInv(cfg, s);
    assert CallOk(cfg, s.calls, i);
    assert Abs(s).status[i] == Finished(s.calls[i].pc.result);
  }

  /** A push that returned success had its message accepted on its channel. */
  lemma OkMeansAccepted(cfg: Config, s: State, i: CallId)
    requires Reached(cfg, s) && i < |s.calls| && s.calls[i].pc == Done(Ok)
    ensures s.calls[i].op.Push?
    ensures Hop(i, s.calls[i].op.payload) in Pushed(s.trace, s.calls[i].op.channel)
  {
    ReachedResult(cfg, s, i);
    var op := s.calls[i].op;
    if op.Push? {
      AcceptedIff(cfg, s.trace, op.channel, i, op.payload);
    }
  }

  /** A pop that returned a message was assigned it, from a channel it asked for. */
  lemma GotMeansAssigned(cfg: Config, s: State, i: CallId, d: Delivery)
    requires Reached(cfg, s) && i < |s.calls| && s.calls[i].pc == Done(Got(d))
    ensures s.calls[i].op.Pop? && d.channel in s.calls[i].op.channels
    ensures Hop(i, d.payload) in Popped(s.trace, d.channel)
  {
    ReachedResult(cfg, s, i);
    DeliveriesAreValid(cfg, s, i, d);
    AssignedIff(cfg, s.trace, d.channel, i, d.payload);
  }

  // ---------- What is rejected ----------

  /** A push that has returned was rejected exactly if its channel is invalid
      or its payload too long. */
  lemma PushRejectedIff(cfg: Config, s: State, i: CallId, c: Channel, p: Payload, r: Outcome)
    requires Reached(cfg, s) && i < |s.calls| && s.calls[i].op == Push(c, p) && s.calls[i].pc == Done(r)
    ensures r == Rejected <==> !ValidChannel(c) || |p| > cfg.maxBytes
  {
    ReachedInv(cfg, s);
    assert CallOk(cfg, s.calls, i);
  }

  /** A pop that has returned was rejected exactly if it asked for no channel
      or for an invalid one. */
  lemma PopRejectedIff(cfg: Config, s: State, i: CallId, cs: seq<Channel>, r: Outcome)
    requires Reached(cfg, s) && i < |s.calls| && s.calls[i].op == Pop(cs) && s.calls[i].pc == Done(r)
    ensures r == Rejected <==> cs == [] || exists k :: 0 <= k < |cs| && !ValidChannel(cs[k])
  {
    ReachedInv(cfg, s);
    assert CallOk(cfg, s.calls, i);
  }

  /** A call that timed out had its context ended. */
  lemma TimeoutNeedsCancel(cfg: Config, s: State, i: CallId)
    requires Reached(cfg, s) && i < |s.calls| && s.calls[i].pc == Done(Timeout)
    ensures s.calls[i].cancelled
  {
    ReachedInv(cfg, s);
    assert CallOk(cfg, s.calls, i);
  }

  lemma AcceptedCall(cfg: Config, s: State, i: CallId)
    requires Reached(cfg, s) && i < |s.calls| && s.calls[i].op.Push?
    requires Abs(s).status[i] in {Decided(Ok), Finished(Ok)}
    ensures ValidChannel(s.calls[i].op.channel) && |s.calls[i].op.payload| <= cfg.maxBytes
  {
    ReachedInv(cfg, s);
    assert CallOk(cfg, s.calls, i);
  }

  /** Every accepted message has a valid channel and a payload within the cap. */
  lemma AcceptedAreValid(cfg: Config, s: State, c: Channel, x: nat)
    requires Reached(cfg, s) && x < |Pushed(s.trace, c)|
    ensures ValidChannel(c) && |Pushed(s.trace, c)[x].payload| <= cfg.maxBytes
  {
    ReachedRefines(cfg, s);
    var h := Pushed(s.trace, c)[x];
    var m := PushedFrom(s.trace, c, x);
    MentionsInvoked(cfg, s.trace, m, h.id);
    AcceptedIff(cfg, s.trace, c, h.id, h.payload);
    assert h in Pushed(s.trace, c) && Abs(s).ops[h.id] == s.calls[h.id].op;
    AcceptedCall(cfg, s, h.id);
  }

  /** So has every queued one. */
  lemma QueuedAreValid(cfg: Config, s: State, c: Channel, k: nat)
    requires Reached(cfg, s) && c in s.b.queues && k < |s.b.queues[c]|
    ensures ValidChannel(c) && |s.b.queues[c][k]| <= cfg.maxBytes
  {
    BrokerFifo(cfg, s, c);
    var x := |Payloads(Popped(s.trace, c))| + k;
    assert Payloads(Pushed(s.trace, c))[x] == s.b.queues[c][k];
    AcceptedAreValid(cfg, s, c, x);
  }

  // ---------- The cancel race ----------

  /** Nobody owes call `w` a message. */
  predicate NoSender(calls: seq<Call>, w: CallId) {
    forall j | 0 <= j < |calls| :: calls[j].pc != PushSending(w)
  }

  /** A waiter still in the list has an empty buffer and no push about to send
      to it. One removed by a push is owed exactly one message: it is in the
      buffer and nobody is sending, or the buffer is empty and exactly that
      push is about to send. */
  lemma CancelRace(cfg: Config, s: State, w: CallId)
    requires Reached(cfg, s) && w < |s.calls|
    requires s.calls[w].op.Pop? && ExpectsReply(s.calls[w].pc)
    ensures var c := s.calls[w];
            if Waiter(w, c.op.channels) in s.b.waiters then c.reply.None? && NoSender(s.calls, w)
            else if c.reply.Some? then NoSender(s.calls, w)
            else exists j | 0 <= j < |s.calls| ::
                   && s.calls[j].pc == PushSending(w)
                   && forall l | 0 <= l < |s.calls| && s.calls[l].pc == PushSending(w) :: l == j
  {
    ReachedInv(cfg, s);
    assert CallOk(cfg, s.calls, w);
    forall j | 0 <= j < |s.calls| && s.calls[j].pc == PushSending(w)
      ensures s.calls[w].helper == Some(j) && s.calls[w].reply.None?
    {
      assert CallOk(cfg, s.calls, j);
    }
    if s.calls[w].helper.Some? {
      assert CallOk(cfg, s.calls, s.calls[w].helper.value);
    }
  }

  lemma RemovedIsQuiet(cfg: Config, s: State, i: CallId)
    requires CallsOk(cfg, s.calls) && i < |s.calls| && s.calls[i].pc.PopRemoved?
    ensures s.calls[i].reply.None? && NoSender(s.calls, i)
  {
    assert CallOk(cfg, s.calls, i);
    forall j | 0 <= j < |s.calls| ensures s.calls[j].pc != PushSending(i) {
      assert CallOk(cfg, s.calls, j);
    }
  }

  /** The send never blocks, the plain receive is always served - at once or
      right after a send that is itself enabled - and the receive case of the
      final select is never taken. */
  lemma HandOffAlwaysCompletes(cfg: Config, s: State, i: CallId)
    requires Reached(cfg, s) && i < |s.calls|
    ensures var c := s.calls[i];
            && (c.pc.PushSending? ==> Enabled(cfg, s, Sending(i)))
            && (c.pc.PopMustReceive? ==>
                  || Enabled(cfg, s, ReceivingLate(i))
                  || (exists h :: c.helper == Some(h) && Enabled(cfg, s, Sending(h))
                                  && Enabled(cfg, Do(cfg, s, Sending(h)), ReceivingLate(i))))
            && (c.pc.PopRemoved? ==> c.reply.None? && NoSender(s.calls, i))
  {
    ReachedInv(cfg, s);
    var c := s.calls[i];
    assert CallOk(cfg, s.calls, i);
    if c.pc.PopMustReceive? && c.reply.None? {
      var h := c.helper.value;
      assert CallOk(cfg, s.calls, h);
      assert Enabled(cfg, s, Sending(h)) && Enabled(cfg, Do(cfg, s, Sending(h)), ReceivingLate(i));
    }
    if c.pc.PopRemoved? {
      RemovedIsQuiet(cfg, s, i);
    }
  }

  /** A pop that returned timeout was assigned no message, so none is lost. */
  lemma TimedOutPopLosesNothing(cfg: Config, s: State, i: CallId, m: nat)
    requires Reached(cfg, s) && i < |s.calls|
    requires s.calls[i].op.Pop? && s.calls[i].pc == Done(Timeout)
    requires m < |s.trace|
    ensures var e := s.trace[m];
            !(e.Dequeue? && e.id == i) && !(e.HandOff? && e.pop == i)
  {
    ReachedRefines(cfg, s);
    var t := s.trace;
    var _, j, _ := CallHistory(cfg, t, i);
    if Decides(t[m], i) {
      assert m == j;
    }
  }

  // ---------- Wake-ups, work and bytes ----------

  /** No lost capacity wake-up: the current signal is open and every earlier
      one was closed exactly once; a blocked push can wake, or its payload
      does not fit. So with all queues empty no push that fits is stuck. */
  lemma NoLostWakeUp(cfg: Config, s: State, i: CallId)
    requires Reached(cfg, s) && i < |s.calls|
    ensures && SignalsOk(s.b)
            && (s.calls[i].pc.PushBlocked? ==>
                  && s.calls[i].op.Push?
                  && (|| Enabled(cfg, s, Waking(i))
                      || (s.calls[i].pc.signal == |s.b.closes| - 1
                          && TotalBytes(s.b.queues) + |s.calls[i].op.payload| > cfg.cap))
                  && (s.b.queues == map[] && |s.calls[i].op.payload| <= cfg.cap ==> Enabled(cfg, s, Waking(i))))
  {
    ReachedInv(cfg, s);
    if s.calls[i].pc.PushBlocked? {
      assert CallOk(cfg, s.calls, i);
    }
  }

  /** A push at the lock whose payload fits leaves it with its message placed. */
  lemma FittingPushSucceeds(cfg: Config, s: State, i: CallId)
    requires Reached(cfg, s) && Enabled(cfg, s, PushLocked(i))
    requires TotalBytes(s.b.queues) + |s.calls[i].op.payload| <= cfg.cap
    ensures var pc := Do(cfg, s, PushLocked(i)).calls[i].pc;
            pc == Finishing(Ok) || pc.PushSending?
  {
    ReachedInv(cfg, s);
    var k := FirstMatch(s.b.waiters, s.calls[i].op.channel);
    if k < |s.b.waiters| {
      assert CallOk(cfg, s.calls, i) && IsWaiting(s.calls[s.b.waiters[k].id]);
    }
  }

  /** Work conservation: no registered waiter wants a non-empty channel. */
  lemma WorkConservation(cfg: Config, s: State, w: Waiter, c: Channel)
    requires Reached(cfg, s) && w in s.b.waiters && c in w.channels
    ensures QueueOf(s.b.queues, c) == []
  {
    ReachedInv(cfg, s);
  }

  /** Byte accounting: the counter is the total of the queues, within the cap,
      and no key maps to an empty queue. */
  lemma ByteAccounting(cfg: Config, s: State)
    requires Reached(cfg, s)
    ensures var b := s.b;
            && b.queuedBytes == TotalBytes(b.queues)
            && 0 <= b.queuedBytes && (0 <= cfg.cap ==> b.queuedBytes <= cfg.cap)
            && forall c | c in b.queues :: b.queues[c] != []
  {
    ReachedInv(cfg, s);
  }

  // ---------- Progress ----------

  predicate StepOf(a: Action, i: CallId) {
    !a.Invoking? && !a.Cancelling? && a.i == i
  }

  ghost predicate HasStep(cfg: Config, s: State, i: CallId) {
    exists a :: StepOf(a, i) && Enabled(cfg, s, a)
  }

  lemma CanStep(cfg: Config, s: State, i: CallId, a: Action)
    requires StepOf(a, i) && Enabled(cfg, s, a)
    ensures HasStep(cfg, s, i)
  {
  }

  lemma PushProgress(cfg: Config, s: State, i: CallId)
    requires SignalsOk(s.b) && CallsOk(cfg, s.calls) && BlockedOk(cfg, s)
    requires i < |s.calls| && s.calls[i].op.Push? && !s.calls[i].pc.Done?
    ensures || HasStep(cfg, s, i)
            || (s.calls[i].pc.PushBlocked? && !s.calls[i].cancelled
                && s.b.queuedBytes + |s.calls[i].op.payload| > cfg.cap)
  {
    var c := s.calls[i];
    assert CallOk(cfg, s.calls, i);
    var a := match c.pc
             case Start => if ValidOp(cfg, c.op) then PushLocked(i) else Rejecting(i)
             case PushBlocked(_) => if c.cancelled then PushGivingUp(i) else Waking(i)
             case PushRetry => PushLocked(i)
             case PushSending(_) => Sending(i)
             case _ => Returning(i);
    if Enabled(cfg, s, a) {
      CanStep(cfg, s, i, a);
    }
  }

  lemma PopProgress(cfg: Config, s: State, i: CallId)
    requires SharedOk(cfg, s.b) && ListOk(s) && CallsOk(cfg, s.calls)
    requires i < |s.calls| && s.calls[i].op.Pop? && !s.calls[i].pc.Done?
    ensures || HasStep(cfg, s, i)
            || (exists h :: s.calls[i].helper == Some(h) && Enabled(cfg, s, Sending(h)))
            || (s.calls[i].pc.PopWaiting? && !s.calls[i].cancelled
                && Waiter(i, s.calls[i].op.channels) in s.b.waiters
                && AllEmpty(s.b.queues, s.calls[i].op.channels))
  {
    var c := s.calls[i];
    assert CallOk(cfg, s.calls, i);
    var a := match c.pc
             case Start => if ValidOp(cfg, c.op) then PopLocked(i) else Rejecting(i)
             case PopWaiting => if c.reply.Some? then Receiving(i) else PopGivingUp(i)
             case PopCancelling => Removing(i)
             case PopMustReceive => ReceivingLate(i)
             case PopRemoved => Selecting(i)
             case _ => Returning(i);
    if Enabled(cfg, s, a) {
      CanStep(cfg, s, i, a);
    } else if c.helper.Some? {
      assert CallOk(cfg, s.calls, c.helper.value);
      assert Enabled(cfg, s, Sending(c.helper.value));
    } else {
      assert Waiter(i, c.op.channels) in s.b.waiters;
    }
  }

  /** No call is ever stuck without a reason: it is done, it can take a step,
      its message is about to be sent by a push that can take a step, it waits
      in the list with all its channels empty, or its payload does not fit. */
  lemma Progress(cfg: Config, s: State, i: CallId)
    requires Reached(cfg, s) && i < |s.calls|
    ensures var c := s.calls[i];
            || c.pc.Done?
            || HasStep(cfg, s, i)
            || (exists h :: c.helper == Some(h) && Enabled(cfg, s, Sending(h)))
            || (c.op.Pop? && c.pc.PopWaiting? && !c.cancelled && Waiter(i, c.op.channels) in s.b.waiters
                && AllEmpty(s.b.queues, c.op.channels))
            || (c.op.Push? && c.pc.PushBlocked? && !c.cancelled
                && TotalBytes(s.b.queues) + |c.op.payload| > cfg.cap)
  {
    ReachedInv(cfg, s);
    if !s.calls[i].pc.Done? {
      if s.calls[i].op.Push? {
        PushProgress(cfg, s, i);
      } else {
        PopProgress(cfg, s, i);
      }
    }
  }
}
