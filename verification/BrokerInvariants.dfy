/** The inductive invariant of the broker's runs. */
module BrokerInvariants {
  import opened Types
  import opened BrokerSections
  import opened AtomicQueue
  import opened BrokerRuns

  // ---------- The lock-protected state on its own ----------

  predicate QueuesOk(cfg: Config, q: Queues) {
    forall c | c in q :: q[c] != [] && forall p | p in q[c] :: ValidPayload(p, cfg.maxBytes)
  }

  /** The byte counter is the total and stays under the cap. */
  ghost predicate BytesOk(cfg: Config, b: Shared) {
    b.queuedBytes == TotalBytes(b.queues) && (b.queuedBytes == 0 || b.queuedBytes <= cfg.cap)
  }

  /** The current signal is open, every earlier one was closed exactly once. */
  predicate SignalsOk(b: Shared) {
    && b.closes != [] && Last(b.closes) == 0
    && forall k | 0 <= k < |b.closes| - 1 :: b.closes[k] == 1
  }

  /** No registered waiter wants a channel that has a queued message. */
  predicate WorkOk(b: Shared) {
    forall k | 0 <= k < |b.waiters| :: AllEmpty(b.queues, b.waiters[k].channels)
  }

  ghost predicate SharedOk(cfg: Config, b: Shared) {
    QueuesOk(cfg, b.queues) && BytesOk(cfg, b) && SignalsOk(b) && WorkOk(b)
  }

  lemma PushSectionOk(cfg: Config, b: Shared, c: Channel, p: Payload)
    requires SharedOk(cfg, b) && ValidPayload(p, cfg.maxBytes)
    ensures SharedOk(cfg, PushSection(b, cfg.cap, c, p).0)
  {
    var b' := PushSection(b, cfg.cap, c, p).0;
    var q := QueueOf(b.queues, c);
    if FirstMatch(b.waiters, c) == |b.waiters| && b.queuedBytes + |p| <= cfg.cap {
      TotalBytesSet(b.queues, c, q + [p]);
      SumBytesSnoc(q, p);
      assert forall k | 0 <= k < |b.waiters| :: c !in b.waiters[k].channels;
    }
  }

  lemma TakeQueuedOk(cfg: Config, b: Shared, cs: seq<Channel>)
    requires SharedOk(cfg, b)
    ensures SharedOk(cfg, TakeQueued(b, cs).0)
    ensures var taken := TakeQueued(b, cs).1;
            if taken.None? then AllEmpty(b.queues, cs)
            else taken.value.channel in cs && ValidPayload(taken.value.payload, cfg.maxBytes)
  {
    var k := FirstQueued(b.queues, cs);
    if k < |cs| {
      var c := cs[k];
      TotalBytesSet(b.queues, c, QueueOf(b.queues, c)[1..]);
    }
  }

  lemma PopSectionOk(cfg: Config, b: Shared, id: CallId, cs: seq<Channel>, cancelled: bool)
    requires SharedOk(cfg, b)
    ensures SharedOk(cfg, PopSection(b, id, cs, cancelled).0)
  {
    TakeQueuedOk(cfg, b, cs);
  }

  lemma CancelSectionOk(cfg: Config, b: Shared, id: CallId)
    requires SharedOk(cfg, b)
    ensures SharedOk(cfg, CancelSection(b, id).0)
  {
  }

  // ---------- Waiters and calls ----------

  /** In the list of waiters: asked to wait, and no push has removed it. */
  predicate IsWaiting(c: Call) {
    c.op.Pop? && (c.pc.PopWaiting? || c.pc.PopCancelling?) && c.helper.None?
  }

  predicate ExpectsReply(pc: Pc) {
    pc.PopWaiting? || pc.PopCancelling? || pc.PopMustReceive?
  }

  predicate HasResult(pc: Pc) {
    pc.Finishing? || pc.Done?
  }

  function ItemOf(op: Op): Delivery
    requires op.Push?
  {
    Delivery(op.channel, op.payload)
  }

  /** The waiter list holds exactly the waiting calls, each once. */
  predicate ListOk(s: State) {
    && (forall k | 0 <= k < |s.b.waiters| ::
          && s.b.waiters[k].id < |s.calls|
          && IsWaiting(s.calls[s.b.waiters[k].id])
          && s.calls[s.b.waiters[k].id].op.channels == s.b.waiters[k].channels)
    && (forall k, l | 0 <= k < l < |s.b.waiters| :: s.b.waiters[k].id != s.b.waiters[l].id)
    && (forall i | 0 <= i < |s.calls| && IsWaiting(s.calls[i]) ::
          Waiter(i, s.calls[i].op.channels) in s.b.waiters)
  }

  predicate PushResultOk(cfg: Config, c: Call, r: Outcome) {
    if ValidOp(cfg, c.op) then r.Ok? || (r.Timeout? && c.cancelled) else r.Rejected?
  }

  predicate PushOk(cfg: Config, calls: seq<Call>, i: CallId)
    requires i < |calls| && calls[i].op.Push?
  {
    var c := calls[i];
    && c.reply.None? && c.helper.None?
    && match c.pc
       case Start => true
       case PushBlocked(_) => ValidOp(cfg, c.op)
       case PushRetry => ValidOp(cfg, c.op)
       case PushSending(w) =>
         && ValidOp(cfg, c.op)
         && w < |calls| && calls[w].op.Pop? && calls[w].helper == Some(i)
         && calls[w].reply.None? && ExpectsReply(calls[w].pc)
       case Finishing(r) => PushResultOk(cfg, c, r)
       case Done(r) => PushResultOk(cfg, c, r)
       case _ => false
  }

  /** A pop whose waiter a push removed: the message is about to be sent,
      buffered, or already the result, and nothing else. */
  predicate HelpedOk(cfg: Config, calls: seq<Call>, i: CallId)
    requires i < |calls| && calls[i].op.Pop? && calls[i].helper.Some?
  {
    var c, h := calls[i], calls[i].helper.value;
    && h < |calls| && calls[h].op.Push? && ValidOp(cfg, calls[h].op)
    && calls[h].op.channel in c.op.channels
    && if !ExpectsReply(c.pc) then HasResult(c.pc) && c.pc.result == Got(ItemOf(calls[h].op))
       else if c.reply.None? then calls[h].pc == PushSending(i)
       else c.reply.value == ItemOf(calls[h].op)
  }

  predicate PopResultOk(cfg: Config, c: Call, r: Outcome)
    requires c.op.Pop?
  {
    if !ValidOp(cfg, c.op) then r.Rejected?
    else match r
         case Got(d) => d.channel in c.op.channels && ValidPayload(d.payload, cfg.maxBytes)
         case Timeout => c.cancelled && c.helper.None?
         case _ => false
  }

  predicate PopOk(cfg: Config, calls: seq<Call>, i: CallId)
    requires i < |calls| && calls[i].op.Pop?
  {
    var c := calls[i];
    && (c.helper.None? ==> c.reply.None?)
    && (c.helper.Some? ==> HelpedOk(cfg, calls, i))
    && match c.pc
       case Start => c.helper.None?
       case PopWaiting => ValidOp(cfg, c.op)
       case PopCancelling => ValidOp(cfg, c.op) && c.cancelled
       case PopMustReceive => ValidOp(cfg, c.op) && c.helper.Some?
       case PopRemoved => ValidOp(cfg, c.op) && c.helper.None? && c.cancelled
       case Finishing(r) => c.reply.None? && PopResultOk(cfg, c, r)
       case Done(r) => c.reply.None? && PopResultOk(cfg, c, r)
       case _ => false
  }

  predicate CallOk(cfg: Config, calls: seq<Call>, i: CallId)
    requires i < |calls|
  {
    if calls[i].op.Push? then PushOk(cfg, calls, i) else PopOk(cfg, calls, i)
  }

  predicate CallsOk(cfg: Config, calls: seq<Call>) {
    forall i | 0 <= i < |calls| :: CallOk(cfg, calls, i)
  }

  /** A push blocked on a signal that is still open really does not fit. */
  predicate BlockedOk(cfg: Config, s: State) {
    forall i | 0 <= i < |s.calls| && s.calls[i].pc.PushBlocked? ::
      && s.calls[i].op.Push?
      && s.calls[i].pc.signal < |s.b.closes|
      && (s.b.closes[s.calls[i].pc.signal] == 0 ==>
            s.b.queuedBytes + |s.calls[i].op.payload| > cfg.cap)
  }

  ghost predicate Inv(cfg: Config, s: State) {
    SharedOk(cfg, s.b) && ListOk(s) && CallsOk(cfg, s.calls) && BlockedOk(cfg, s)
  }

  lemma SharedQuiet(cfg: Config, s: State, a: Action)
    requires Enabled(cfg, s, a) && !a.PushLocked? && !a.PopLocked? && !a.Removing?
    ensures Do(cfg, s, a).b == s.b
  {
  }

  lemma SharedPush(cfg: Config, s: State, i: CallId)
    requires SharedOk(cfg, s.b) && i < |s.calls| && s.calls[i].op.Push? && ValidOp(cfg, s.calls[i].op)
    ensures SharedOk(cfg, DoPush(cfg, s, i).b)
  {
    PushSectionOk(cfg, s.b, s.calls[i].op.channel, s.calls[i].op.payload);
  }

  lemma SharedPop(cfg: Config, s: State, i: CallId)
    requires SharedOk(cfg, s.b) && i < |s.calls| && s.calls[i].op.Pop?
    ensures SharedOk(cfg, DoPop(s, i).b)
  {
    PopSectionOk(cfg, s.b, i, s.calls[i].op.channels, s.calls[i].cancelled);
  }

  lemma SharedStep(cfg: Config, s: State, a: Action)
    requires Inv(cfg, s) && Enabled(cfg, s, a)
    ensures SharedOk(cfg, Do(cfg, s, a).b)
  {
    match a
    case PushLocked(i) => SharedPush(cfg, s, i);
    case PopLocked(i) => SharedPop(cfg, s, i);
    case Removing(i) => CancelSectionOk(cfg, s.b, i);
    case _ => SharedQuiet(cfg, s, a);
  }

  // ---------- Preservation: the waiter list ----------

  /** Steps that neither add nor remove a waiting call. */
  lemma ListQuiet(s: State, s': State)
    requires ListOk(s) && s'.b.waiters == s.b.waiters && |s.calls| <= |s'.calls|
    requires forall i | 0 <= i < |s.calls| ::
               s'.calls[i].op == s.calls[i].op && (IsWaiting(s'.calls[i]) <==> IsWaiting(s.calls[i]))
    requires forall i | |s.calls| <= i < |s'.calls| :: !IsWaiting(s'.calls[i])
    ensures ListOk(s')
  {
  }

  /** Steps that take the waiter at `k` out and stop its call from waiting. */
  predicate Removes(s: State, s': State, k: nat)
    requires k < |s.b.waiters|
  {
    && s'.b.waiters == Without(s.b.waiters, k)
    && |s.calls| == |s'.calls|
    && forall i | 0 <= i < |s.calls| ::
         && s'.calls[i].op == s.calls[i].op
         && (IsWaiting(s'.calls[i]) <==> IsWaiting(s.calls[i]) && i != s.b.waiters[k].id)
  }

  lemma ListRemove(s: State, s': State, k: nat)
    requires ListOk(s) && k < |s.b.waiters| && Removes(s, s', k)
    ensures ListOk(s')
  {
  }

  lemma ListAdd(s: State, s': State, i: CallId)
    requires ListOk(s) && i < |s.calls| == |s'.calls| && s.calls[i].op.Pop? && !IsWaiting(s.calls[i])
    requires s'.b.waiters == s.b.waiters + [Waiter(i, s.calls[i].op.channels)]
    requires forall j | 0 <= j < |s.calls| ::
               && s'.calls[j].op == s.calls[j].op
               && (IsWaiting(s'.calls[j]) <==> IsWaiting(s.calls[j]) || j == i)
    ensures ListOk(s')
  {
  }

  /** The waiter is found exactly when no push has removed it. */
  lemma RemovingCall(cfg: Config, s: State, i: CallId)
    requires ListOk(s) && CallsOk(cfg, s.calls) && i < |s.calls| && s.calls[i].pc == PopCancelling
    ensures CancelSection(s.b, i).1 <==> s.calls[i].helper.None?
  {
    assert CallOk(cfg, s.calls, i);
    if IsWaiting(s.calls[i]) {
      assert Waiter(i, s.calls[i].op.channels) in s.b.waiters;
    }
  }

  lemma ListPush(cfg: Config, s: State, i: CallId)
    requires SignalsOk(s.b) && ListOk(s) && i < |s.calls| && AtPushLock(s.calls[i])
    ensures ListOk(DoPush(cfg, s, i))
  {
    var k := FirstMatch(s.b.waiters, s.calls[i].op.channel);
    if k < |s.b.waiters| {
      ListRemove(s, DoPush(cfg, s, i), k);
    } else {
      ListQuiet(s, DoPush(cfg, s, i));
    }
  }

  lemma ListPop(cfg: Config, s: State, i: CallId)
    requires SignalsOk(s.b) && ListOk(s) && CallsOk(cfg, s.calls)
    requires i < |s.calls| && s.calls[i].op.Pop? && s.calls[i].pc == Start
    ensures ListOk(DoPop(s, i))
  {
    assert CallOk(cfg, s.calls, i);
    if PopSection(s.b, i, s.calls[i].op.channels, s.calls[i].cancelled).1.Registered? {
      ListAdd(s, DoPop(s, i), i);
    } else {
      ListQuiet(s, DoPop(s, i));
    }
  }

  lemma ListRemoving(cfg: Config, s: State, i: CallId)
    requires ListOk(s) && CallsOk(cfg, s.calls) && i < |s.calls| && s.calls[i].pc == PopCancelling
    ensures ListOk(DoRemove(s, i))
  {
    RemovingCall(cfg, s, i);
    var k := PositionOf(s.b.waiters, i);
    if k < |s.b.waiters| {
      ListRemove(s, DoRemove(s, i), k);
    } else {
      ListQuiet(s, DoRemove(s, i));
    }
  }

  lemma ListOther(cfg: Config, s: State, a: Action)
    requires ListOk(s) && CallsOk(cfg, s.calls) && Enabled(cfg, s, a)
    requires !a.PushLocked? && !a.PopLocked? && !a.Removing?
    ensures ListOk(Do(cfg, s, a))
  {
    var s' := Do(cfg, s, a);
    assert a.Invoking? || CallOk(cfg, s.calls, a.i);
    ListQuiet(s, s');
  }

  lemma ListStep(cfg: Config, s: State, a: Action)
    requires Inv(cfg, s) && Enabled(cfg, s, a)
    ensures ListOk(Do(cfg, s, a))
  {
    match a
    case PushLocked(i) => ListPush(cfg, s, i);
    case PopLocked(i) => ListPop(cfg, s, i);
    case Removing(i) => ListRemoving(cfg, s, i);
    case _ => ListOther(cfg, s, a);
  }

  // ---------- Preservation: the calls ----------

  /** A push that is sending keeps doing so, and a pop that is owed a message
      keeps expecting it. */
  predicate KeepsPromise(c: Call, c': Call) {
    && c'.op == c.op
    && (c.op.Push? && c.pc.PushSending? ==> c'.pc == c.pc)
    && (c.op.Pop? && c.helper.Some? && c.reply.None? && ExpectsReply(c.pc) ==>
          c'.helper == c.helper && c'.reply.None? && ExpectsReply(c'.pc))
  }

  lemma OneCall(cfg: Config, calls: seq<Call>, i: CallId, c': Call)
    requires CallsOk(cfg, calls) && i < |calls| && KeepsPromise(calls[i], c')
    requires CallOk(cfg, calls[i := c'], i)
    ensures CallsOk(cfg, calls[i := c'])
  {
    var calls' := calls[i := c'];
    forall j | 0 <= j < |calls'| ensures CallOk(cfg, calls', j) {
      assert CallOk(cfg, calls, j) && CallOk(cfg, calls, i);
    }
  }

  lemma HandOffCalls(cfg: Config, calls: seq<Call>, i: CallId, w: CallId)
    requires CallsOk(cfg, calls) && i < |calls| && w < |calls|
    requires AtPushLock(calls[i]) && ValidOp(cfg, calls[i].op)
    requires IsWaiting(calls[w]) && calls[i].op.channel in calls[w].op.channels
    ensures CallsOk(cfg, calls[i := calls[i].(pc := PushSending(w))][w := calls[w].(helper := Some(i))])
  {
    var calls' := calls[i := calls[i].(pc := PushSending(w))][w := calls[w].(helper := Some(i))];
    forall j | 0 <= j < |calls'| ensures CallOk(cfg, calls', j) {
      assert CallOk(cfg, calls, j) && CallOk(cfg, calls, i) && CallOk(cfg, calls, w);
    }
  }

  lemma SendCalls(cfg: Config, calls: seq<Call>, i: CallId, w: CallId)
    requires CallsOk(cfg, calls) && i < |calls| && w < |calls|
    requires calls[i].op.Push? && calls[i].pc == PushSending(w)
    ensures CallsOk(cfg, calls[i := calls[i].(pc := Finishing(Ok))][w := calls[w].(reply := Some(ItemOf(calls[i].op)))])
  {
    var calls' := calls[i := calls[i].(pc := Finishing(Ok))][w := calls[w].(reply := Some(ItemOf(calls[i].op)))];
    forall j | 0 <= j < |calls'| ensures CallOk(cfg, calls', j) {
      assert CallOk(cfg, calls, j) && CallOk(cfg, calls, i) && CallOk(cfg, calls, w);
    }
  }

  lemma CallsInvoke(cfg: Config, calls: seq<Call>, op: Op)
    requires CallsOk(cfg, calls)
    ensures CallsOk(cfg, calls + [Call(op, false, Start, None, None)])
  {
    var calls' := calls + [Call(op, false, Start, None, None)];
    forall j | 0 <= j < |calls'| ensures CallOk(cfg, calls', j) {
      assert j < |calls| ==> CallOk(cfg, calls, j);
    }
  }

  lemma CallsPush(cfg: Config, s: State, i: CallId)
    requires SignalsOk(s.b) && ListOk(s) && CallsOk(cfg, s.calls)
    requires i < |s.calls| && AtPushLock(s.calls[i]) && ValidOp(cfg, s.calls[i].op)
    ensures CallsOk(cfg, DoPush(cfg, s, i).calls)
  {
    var k := FirstMatch(s.b.waiters, s.calls[i].op.channel);
    if k < |s.b.waiters| {
      HandOffCalls(cfg, s.calls, i, s.b.waiters[k].id);
    } else {
      assert CallOk(cfg, s.calls, i);
      OneCall(cfg, s.calls, i, DoPush(cfg, s, i).calls[i]);
    }
  }

  lemma CallsPop(cfg: Config, s: State, i: CallId)
    requires SharedOk(cfg, s.b) && CallsOk(cfg, s.calls)
    requires i < |s.calls| && s.calls[i].op.Pop? && s.calls[i].pc == Start && ValidOp(cfg, s.calls[i].op)
    ensures CallsOk(cfg, DoPop(s, i).calls)
  {
    TakeQueuedOk(cfg, s.b, s.calls[i].op.channels);
    assert CallOk(cfg, s.calls, i);
    OneCall(cfg, s.calls, i, DoPop(s, i).calls[i]);
  }

  lemma CallsRemoving(cfg: Config, s: State, i: CallId)
    requires ListOk(s) && CallsOk(cfg, s.calls) && i < |s.calls| && s.calls[i].pc == PopCancelling
    ensures CallsOk(cfg, DoRemove(s, i).calls)
  {
    RemovingCall(cfg, s, i);
    assert CallOk(cfg, s.calls, i);
    OneCall(cfg, s.calls, i, DoRemove(s, i).calls[i]);
  }

  lemma CallsOther(cfg: Config, s: State, a: Action)
    requires CallsOk(cfg, s.calls) && Enabled(cfg, s, a)
    requires a.Cancelling? || a.Rejecting? || a.Waking? || a.PushGivingUp? || a.Receiving? || a.PopGivingUp?
             || a.ReceivingLate? || a.Selecting? || a.Returning?
    ensures CallsOk(cfg, Do(cfg, s, a).calls)
  {
    var s' := Do(cfg, s, a);
    assert CallOk(cfg, s.calls, a.i);
    OneCall(cfg, s.calls, a.i, s'.calls[a.i]);
  }

  lemma CallsStep(cfg: Config, s: State, a: Action)
    requires Inv(cfg, s) && Enabled(cfg, s, a)
    ensures CallsOk(cfg, Do(cfg, s, a).calls)
  {
    match a
    case Invoking(op) => CallsInvoke(cfg, s.calls, op);
    case PushLocked(i) => CallsPush(cfg, s, i);
    case Sending(i) =>
      assert CallOk(cfg, s.calls, i);
      SendCalls(cfg, s.calls, i, s.calls[i].pc.to);
    case PopLocked(i) => CallsPop(cfg, s, i);
    case Removing(i) => CallsRemoving(cfg, s, i);
    case _ => CallsOther(cfg, s, a);
  }

  // ---------- Preservation: blocked pushes ----------

  /** No signal is closed by the step, and no room is made. */
  lemma BlockedQuiet(cfg: Config, s: State, s': State)
    requires BlockedOk(cfg, s) && s'.b.closes == s.b.closes && s'.b.queuedBytes >= s.b.queuedBytes
    requires |s.calls| <= |s'.calls|
    requires forall i | 0 <= i < |s'.calls| && s'.calls[i].pc.PushBlocked? ::
               i < |s.calls| && s'.calls[i].pc == s.calls[i].pc && s'.calls[i].op == s.calls[i].op
    ensures BlockedOk(cfg, s')
  {
  }

  lemma BlockedPush(cfg: Config, s: State, i: CallId)
    requires SignalsOk(s.b) && BlockedOk(cfg, s) && i < |s.calls| && AtPushLock(s.calls[i])
    ensures BlockedOk(cfg, DoPush(cfg, s, i))
  {
  }

  lemma BlockedPop(cfg: Config, s: State, i: CallId)
    requires SignalsOk(s.b) && BlockedOk(cfg, s) && i < |s.calls| && s.calls[i].op.Pop?
    ensures BlockedOk(cfg, DoPop(s, i))
  {
  }

  lemma BlockedOther(cfg: Config, s: State, a: Action)
    requires BlockedOk(cfg, s) && Enabled(cfg, s, a) && !a.PushLocked? && !a.PopLocked?
    ensures BlockedOk(cfg, Do(cfg, s, a))
  {
    BlockedQuiet(cfg, s, Do(cfg, s, a));
  }

  lemma BlockedStep(cfg: Config, s: State, a: Action)
    requires Inv(cfg, s) && Enabled(cfg, s, a)
    ensures BlockedOk(cfg, Do(cfg, s, a))
  {
    match a
    case PushLocked(i) => BlockedPush(cfg, s, i);
    case PopLocked(i) => BlockedPop(cfg, s, i);
    case _ => BlockedOther(cfg, s, a);
  }

  // ---------- Every reachable state ----------

  lemma Step(cfg: Config, s: State, a: Action)
    requires Inv(cfg, s) && Enabled(cfg, s, a)
    ensures Inv(cfg, Do(cfg, s, a))
  {
    SharedStep(cfg, s, a);
    ListStep(cfg, s, a);
    CallsStep(cfg, s, a);
    BlockedStep(cfg, s, a);
  }

  lemma {:induction false} RunKeepsInv(cfg: Config, acts: seq<Action>)
    requires Runs(cfg, acts)
    ensures Inv(cfg, Exec(cfg, acts))
    decreases |acts|
  {
    if acts != [] {
      RunKeepsInv(cfg, Init(acts));
      Step(cfg, Exec(cfg, Init(acts)), Last(acts));
    }
  }

  /** The invariant holds in every reachable state. */
  lemma ReachedInv(cfg: Config, s: State)
    requires Reached(cfg, s)
    ensures Inv(cfg, s)
  {
    var acts :| Runs(cfg, acts) && Exec(cfg, acts) == s;
    RunKeepsInv(cfg, acts);
  }
}
