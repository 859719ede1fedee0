/** Every run of the broker refines the atomic queue: its trace is legal, and
    the state is what the trace says. A push takes effect at the append or at
    the removal of a waiter; a pop at the dequeue or at the removal of its
    waiter by the push that helps it. */
module BrokerRefinement {
  import opened Types
  import opened BrokerSections
  import opened AtomicQueue
  import opened BrokerRuns
  import opened BrokerInvariants

  function Ops(calls: seq<Call>): (r: seq<Op>)
    ensures |r| == |calls| && forall i | 0 <= i < |calls| :: r[i] == calls[i].op
  {
    seq(|calls|, i requires 0 <= i < |calls| => calls[i].op)
  }

  function Cancels(calls: seq<Call>): (r: seq<bool>)
    ensures |r| == |calls| && forall i | 0 <= i < |calls| :: r[i] == calls[i].cancelled
  {
    seq(|calls|, i requires 0 <= i < |calls| => calls[i].cancelled)
  }

  /** How far the atomic queue considers a call to have come. */
  function StatusOf(calls: seq<Call>, i: CallId): Status
    requires i < |calls|
  {
    var c := calls[i];
    match c.pc
    case Start => Pending
    case PushBlocked(_) => Stalled
    case PushRetry => Stalled
    case PushSending(_) => Decided(Ok)
    case PopRemoved => Decided(Timeout)
    case Finishing(r) => if r.Rejected? then Pending else if r.Timeout? && c.op.Push? then Stalled else Decided(r)
    case Done(r) => Finished(r)
    case _ =>
      if c.helper.Some? && c.helper.value < |calls| && calls[c.helper.value].op.Push?
      then Decided(Got(ItemOf(calls[c.helper.value].op))) else Waiting
  }

  function Statuses(calls: seq<Call>): (r: seq<Status>)
    ensures |r| == |calls| && forall i | 0 <= i < |calls| :: r[i] == StatusOf(calls, i)
  {
    seq(|calls|, i requires 0 <= i < |calls| => StatusOf(calls, i))
  }

  function Abs(s: State): (r: Spec)
    ensures r.Coherent()
  {
    Spec(Ops(s.calls), Cancels(s.calls), Statuses(s.calls), s.b.queues, s.b.waiters)
  }

  /** The step is invisible, or it is one legal event of the atomic queue. */
  ghost predicate Refines(cfg: Config, s: State, s': State) {
    || (s'.trace == s.trace && Abs(s') == Abs(s))
    || (exists e ::
          && s'.trace == s.trace + [e]
          && Legal(cfg, Abs(s), e) && Abs(s') == Apply(Abs(s), e))
  }

  lemma Visible(cfg: Config, s: State, s': State, e: Event)
    requires s'.trace == s.trace + [e] && Legal(cfg, Abs(s), e) && Abs(s') == Apply(Abs(s), e)
    ensures Refines(cfg, s, s')
  {
  }

  /** What the atomic queue sees of a change to one call. */
  lemma SetAbs(calls: seq<Call>, i: CallId, c: Call)
    requires i < |calls| && c.op == calls[i].op && c.cancelled == calls[i].cancelled
    ensures var calls' := calls[i := c];
            && Ops(calls') == Ops(calls) && Cancels(calls') == Cancels(calls)
            && Statuses(calls') == Statuses(calls)[i := StatusOf(calls', i)]
  {
  }

  lemma HandOffAbs(calls: seq<Call>, i: CallId, w: CallId)
    requires i < |calls| && w < |calls| && calls[i].op.Push? && IsWaiting(calls[w])
    ensures var calls' := calls[i := calls[i].(pc := PushSending(w))][w := calls[w].(helper := Some(i))];
            && Ops(calls') == Ops(calls) && Cancels(calls') == Cancels(calls)
            && Statuses(calls') == Statuses(calls)[i := Decided(Ok)][w := Decided(Got(ItemOf(calls[i].op)))]
  {
  }

  lemma InvokeAbs(cfg: Config, calls: seq<Call>, op: Op)
    requires CallsOk(cfg, calls)
    ensures var calls' := calls + [Call(op, false, Start, None, None)];
            && Ops(calls') == Ops(calls) + [op] && Cancels(calls') == Cancels(calls) + [false]
            && Statuses(calls') == Statuses(calls) + [Pending]
  {
    var calls' := calls + [Call(op, false, Start, None, None)];
    assert Ops(calls') == Ops(calls) + [op];
    assert Cancels(calls') == Cancels(calls) + [false];
    forall j | 0 <= j < |calls| ensures StatusOf(calls', j) == StatusOf(calls, j) {
      assert CallOk(cfg, calls, j);
    }
    assert Statuses(calls') == Statuses(calls) + [Pending];
  }

  lemma HandOffLegal(cfg: Config, s: State, i: CallId, k: nat)
    requires Inv(cfg, s) && i < |s.calls| && AtPushLock(s.calls[i]) && ValidOp(cfg, s.calls[i].op)
    requires k == FirstMatch(s.b.waiters, s.calls[i].op.channel) < |s.b.waiters|
    ensures Legal(cfg, Abs(s), HandOff(i, s.b.waiters[k].id, ItemOf(s.calls[i].op)))
    ensures PositionOf(s.b.waiters, s.b.waiters[k].id) == k
  {
  }

  lemma RefinesHandOff(cfg: Config, s: State, i: CallId, k: nat)
    requires Inv(cfg, s) && i < |s.calls| && AtPushLock(s.calls[i]) && ValidOp(cfg, s.calls[i].op)
    requires k == FirstMatch(s.b.waiters, s.calls[i].op.channel) < |s.b.waiters|
    ensures Refines(cfg, s, DoPush(cfg, s, i))
  {
    var w := s.b.waiters[k].id;
    HandOffLegal(cfg, s, i, k);
    HandOffAbs(s.calls, i, w);
    Visible(cfg, s, DoPush(cfg, s, i), HandOff(i, w, ItemOf(s.calls[i].op)));
  }

  lemma RefinesPush(cfg: Config, s: State, i: CallId)
    requires Inv(cfg, s) && i < |s.calls| && AtPushLock(s.calls[i]) && ValidOp(cfg, s.calls[i].op)
    ensures Refines(cfg, s, DoPush(cfg, s, i))
  {
    var op, ws := s.calls[i].op, s.b.waiters;
    if FirstMatch(ws, op.channel) < |ws| {
      RefinesHandOff(cfg, s, i, FirstMatch(ws, op.channel));
    } else {
      assert !Wanted(ws, op.channel);
      var e := if s.b.queuedBytes + |op.payload| <= cfg.cap then Enqueue(i, ItemOf(op)) else FoundFull(i);
      assert Legal(cfg, Abs(s), e);
      SetAbs(s.calls, i, DoPush(cfg, s, i).calls[i]);
      Visible(cfg, s, DoPush(cfg, s, i), e);
    }
  }

  function PopEvent(s: State, i: CallId): Event
    requires i < |s.calls| && s.calls[i].op.Pop?
  {
    var cs := s.calls[i].op.channels;
    var k := FirstQueued(s.b.queues, cs);
    if k < |cs| then Dequeue(i, Delivery(cs[k], QueueOf(s.b.queues, cs[k])[0]))
    else if s.calls[i].cancelled then FoundEmpty(i) else Register(i)
  }

  lemma PopLegal(cfg: Config, s: State, i: CallId)
    requires SharedOk(cfg, s.b) && i < |s.calls| && s.calls[i].op.Pop? && s.calls[i].pc == Start
    requires ValidOp(cfg, s.calls[i].op)
    ensures Legal(cfg, Abs(s), PopEvent(s, i))
  {
  }

  lemma LeaveAbsent(ws: seq<Waiter>, i: CallId)
    requires forall l | 0 <= l < |ws| :: ws[l].id != i
    ensures Leave(ws, i) == ws
  {
  }

  lemma RefinesTook(cfg: Config, s: State, i: CallId, k: nat)
    requires SharedOk(cfg, s.b) && i < |s.calls| && s.calls[i].op.Pop? && s.calls[i].pc == Start
    requires ValidOp(cfg, s.calls[i].op)
    requires k == FirstQueued(s.b.queues, s.calls[i].op.channels) < |s.calls[i].op.channels|
    ensures Refines(cfg, s, DoPop(s, i))
  {
    PopLegal(cfg, s, i);
    SetAbs(s.calls, i, DoPop(s, i).calls[i]);
    Visible(cfg, s, DoPop(s, i), PopEvent(s, i));
  }

  lemma RefinesGaveUp(cfg: Config, s: State, i: CallId)
    requires SharedOk(cfg, s.b) && ListOk(s) && i < |s.calls| && s.calls[i].op.Pop? && s.calls[i].pc == Start
    requires ValidOp(cfg, s.calls[i].op) && s.calls[i].cancelled
    requires FirstQueued(s.b.queues, s.calls[i].op.channels) == |s.calls[i].op.channels|
    ensures Refines(cfg, s, DoPop(s, i))
  {
    PopLegal(cfg, s, i);
    LeaveAbsent(s.b.waiters, i);
    SetAbs(s.calls, i, DoPop(s, i).calls[i]);
    Visible(cfg, s, DoPop(s, i), FoundEmpty(i));
  }

  lemma RefinesRegistered(cfg: Config, s: State, i: CallId)
    requires SharedOk(cfg, s.b) && i < |s.calls| && s.calls[i].op.Pop? && s.calls[i].pc == Start
    requires ValidOp(cfg, s.calls[i].op) && s.calls[i].helper.None? && !s.calls[i].cancelled
    requires FirstQueued(s.b.queues, s.calls[i].op.channels) == |s.calls[i].op.channels|
    ensures Refines(cfg, s, DoPop(s, i))
  {
    PopLegal(cfg, s, i);
    SetAbs(s.calls, i, DoPop(s, i).calls[i]);
    Visible(cfg, s, DoPop(s, i), Register(i));
  }

  lemma RefinesPop(cfg: Config, s: State, i: CallId)
    requires SharedOk(cfg, s.b) && ListOk(s) && i < |s.calls| && s.calls[i].op.Pop? && s.calls[i].pc == Start
    requires ValidOp(cfg, s.calls[i].op) && s.calls[i].helper.None?
    ensures Refines(cfg, s, DoPop(s, i))
  {
    var k := FirstQueued(s.b.queues, s.calls[i].op.channels);
    if k < |s.calls[i].op.channels| {
      RefinesTook(cfg, s, i, k);
    } else if s.calls[i].cancelled {
      RefinesGaveUp(cfg, s, i);
    } else {
      RefinesRegistered(cfg, s, i);
    }
  }

  lemma RefinesRemoving(cfg: Config, s: State, i: CallId)
    requires Inv(cfg, s) && i < |s.calls| && s.calls[i].pc == PopCancelling
    ensures Refines(cfg, s, DoRemove(s, i))
  {
    RemovingCall(cfg, s, i);
    assert CallOk(cfg, s.calls, i);
    var k := PositionOf(s.b.waiters, i);
    SetAbs(s.calls, i, DoRemove(s, i).calls[i]);
    if k < |s.b.waiters| {
      assert AllEmpty(s.b.queues, s.b.waiters[k].channels);
      Visible(cfg, s, DoRemove(s, i), FoundEmpty(i));
    } else {
      assert Abs(DoRemove(s, i)) == Abs(s);
    }
  }

  lemma RefinesCancelling(cfg: Config, s: State, i: CallId)
    requires Enabled(cfg, s, Cancelling(i))
    ensures Refines(cfg, s, Do(cfg, s, Cancelling(i)))
  {
  }

  lemma ReturnLegal(cfg: Config, s: State, i: CallId)
    requires CallsOk(cfg, s.calls) && Enabled(cfg, s, Returning(i))
    ensures Legal(cfg, Abs(s), Return(i, s.calls[i].pc.result))
  {
    assert CallOk(cfg, s.calls, i);
  }

  lemma RefinesReturning(cfg: Config, s: State, i: CallId)
    requires CallsOk(cfg, s.calls) && Enabled(cfg, s, Returning(i))
    ensures Refines(cfg, s, Do(cfg, s, Returning(i)))
  {
    var r := s.calls[i].pc.result;
    ReturnLegal(cfg, s, i);
    SetAbs(s.calls, i, s.calls[i].(pc := Done(r)));
    Visible(cfg, s, Do(cfg, s, Returning(i)), Return(i, r));
  }

  lemma RefinesSending(cfg: Config, s: State, i: CallId)
    requires CallsOk(cfg, s.calls) && Enabled(cfg, s, Sending(i))
    ensures Refines(cfg, s, Do(cfg, s, Sending(i)))
  {
  }

  /** A step of one call that leaves its status alone is invisible. */
  lemma Invisible(cfg: Config, s: State, s': State, i: CallId, c: Call)
    requires i < |s.calls| && c.op == s.calls[i].op && c.cancelled == s.calls[i].cancelled
    requires s'.b == s.b && s'.trace == s.trace && s'.calls == s.calls[i := c]
    requires StatusOf(s'.calls, i) == StatusOf(s.calls, i)
    ensures Refines(cfg, s, s')
  {
    SetAbs(s.calls, i, c);
    assert Statuses(s'.calls) == Statuses(s.calls);
  }

  lemma RefinesReceiving(cfg: Config, s: State, i: CallId)
    requires CallsOk(cfg, s.calls) && i < |s.calls| && s.calls[i].reply.Some? && ExpectsReply(s.calls[i].pc)
    ensures Refines(cfg, s, Receive(s, i))
  {
    assert CallOk(cfg, s.calls, i);
    Invisible(cfg, s, Receive(s, i), i, Receive(s, i).calls[i]);
  }

  lemma RefinesInternal(cfg: Config, s: State, a: Action)
    requires CallsOk(cfg, s.calls) && Enabled(cfg, s, a)
    requires a.Rejecting? || a.Waking? || a.PushGivingUp? || a.PopGivingUp? || a.Selecting?
    ensures Refines(cfg, s, Do(cfg, s, a))
  {
    assert CallOk(cfg, s.calls, a.i);
    Invisible(cfg, s, Do(cfg, s, a), a.i, Do(cfg, s, a).calls[a.i]);
  }

  lemma RefinesStep(cfg: Config, s: State, a: Action)
    requires Inv(cfg, s) && Enabled(cfg, s, a)
    ensures Refines(cfg, s, Do(cfg, s, a))
  {
    var s' := Do(cfg, s, a);
    match a
    case Invoking(op) =>
      InvokeAbs(cfg, s.calls, op);
      Visible(cfg, s, s', Invoke(|s.calls|, op));
    case Cancelling(i) => RefinesCancelling(cfg, s, i);
    case PushLocked(i) => RefinesPush(cfg, s, i);
    case PopLocked(i) =>
      assert CallOk(cfg, s.calls, i);
      RefinesPop(cfg, s, i);
    case Removing(i) => RefinesRemoving(cfg, s, i);
    case Returning(i) => RefinesReturning(cfg, s, i);
    case Sending(i) => RefinesSending(cfg, s, i);
    case Receiving(i) => RefinesReceiving(cfg, s, i);
    case ReceivingLate(i) => RefinesReceiving(cfg, s, i);
    case _ => RefinesInternal(cfg, s, a);
  }

  /** The refinement theorem: any run, of any number of calls. */
  lemma {:induction false} RunRefines(cfg: Config, acts: seq<Action>)
    requires Runs(cfg, acts)
    ensures LegalTrace(cfg, Exec(cfg, acts).trace)
    ensures After(cfg, Exec(cfg, acts).trace) == Abs(Exec(cfg, acts))
    decreases |acts|
  {
    if acts == [] {
      assert Abs(INITIAL_STATE) == INITIAL;
    } else {
      var s, a := Exec(cfg, Init(acts)), Last(acts);
      RunRefines(cfg, Init(acts));
      RunKeepsInv(cfg, Init(acts));
      RefinesStep(cfg, s, a);
      var s' := Do(cfg, s, a);
      if s'.trace != s.trace || Abs(s') != Abs(s) {
        var e :| s'.trace == s.trace + [e] && Legal(cfg, Abs(s), e) && Abs(s') == Apply(Abs(s), e);
        Extend(cfg, s.trace, e);
      }
    }
  }

  lemma ReachedRefines(cfg: Config, s: State)
    requires Reached(cfg, s)
    ensures LegalTrace(cfg, s.trace) && After(cfg, s.trace) == Abs(s)
  {
    var acts :| Runs(cfg, acts) && Exec(cfg, acts) == s;
    RunRefines(cfg, acts);
  }
}
