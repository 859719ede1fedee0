/** The broker as a transition system over any number of concurrent calls.
    Each call has a program counter; an action is one lock-held section or one
    unlocked step of one call. `trace` and `helper` are history: no action
    depends on them. */
module BrokerRuns {
  import opened Types
  import opened BrokerSections
  import opened AtomicQueue

  datatype Pc =
    | Start                       // before the lock
    | PushBlocked(signal: nat)    // in the select on the drain signal
    | PushRetry                   // woken, before the lock
    | PushSending(to: CallId)     // unlocked, before the send to `reply`
    | PopWaiting                  // in the select on `reply`
    | PopCancelling               // context done, before the lock
    | PopMustReceive              // not removed: the plain receive
    | PopRemoved                  // removed: the select with a default
    | Finishing(result: Outcome)   // result fixed, before the return
    | Done(result: Outcome)

  /** One call. `reply` is the one-place buffer of its waiter; `helper` is the
      push that removed its waiter, if any. */
  datatype Call = Call(op: Op, cancelled: bool, pc: Pc, reply: Option<Delivery>, helper: Option<CallId>)

  datatype State = State(b: Shared, calls: seq<Call>, trace: Trace)

  datatype Action =
    | Invoking(op: Op)
    | Cancelling(i: CallId)       // the context ends, at any time
    | Rejecting(i: CallId)
    | PushLocked(i: CallId)
    | Waking(i: CallId)
    | PushGivingUp(i: CallId)
    | Sending(i: CallId)
    | PopLocked(i: CallId)
    | Receiving(i: CallId)
    | PopGivingUp(i: CallId)
    | Removing(i: CallId)
    | ReceivingLate(i: CallId)
    | Selecting(i: CallId)
    | Returning(i: CallId)

  const INITIAL_STATE := State(EMPTY_BROKER, [], [])

  predicate AtPushLock(c: Call) {
    c.op.Push? && (c.pc == Start || c.pc == PushRetry)
  }

  predicate Enabled(cfg: Config, s: State, a: Action) {
    && s.b.closes != []
    && (a.Invoking? || a.i < |s.calls|)
    && match a
       case Invoking(_) => true
       case Cancelling(i) => !s.calls[i].cancelled
       case Rejecting(i) => s.calls[i].pc == Start && !ValidOp(cfg, s.calls[i].op)
       case PushLocked(i) => AtPushLock(s.calls[i]) && ValidOp(cfg, s.calls[i].op)
       case Waking(i) =>
         s.calls[i].pc.PushBlocked? && s.calls[i].pc.signal < |s.b.closes| && s.b.closes[s.calls[i].pc.signal] > 0
       case PushGivingUp(i) => s.calls[i].pc.PushBlocked? && s.calls[i].cancelled
       case Sending(i) =>
         && s.calls[i].op.Push? && s.calls[i].pc.PushSending? && s.calls[i].pc.to < |s.calls|
         && s.calls[s.calls[i].pc.to].reply.None?
       case PopLocked(i) => s.calls[i].op.Pop? && s.calls[i].pc == Start && ValidOp(cfg, s.calls[i].op)
       case Receiving(i) => s.calls[i].pc == PopWaiting && s.calls[i].reply.Some?
       case PopGivingUp(i) => s.calls[i].pc == PopWaiting && s.calls[i].cancelled
       case Removing(i) => s.calls[i].pc == PopCancelling
       case ReceivingLate(i) => s.calls[i].pc == PopMustReceive && s.calls[i].reply.Some?
       case Selecting(i) => s.calls[i].pc == PopRemoved
       case Returning(i) => s.calls[i].pc.Finishing?
  }

  /** Call `i` moves to `pc`, and nothing else changes. */
  function Goto(s: State, i: CallId, pc: Pc): State
    requires i < |s.calls|
  {
    s.(calls := s.calls[i := s.calls[i].(pc := pc)])
  }

  function Receive(s: State, i: CallId): State
    requires i < |s.calls| && s.calls[i].reply.Some?
  {
    s.(calls := s.calls[i := s.calls[i].(pc := Finishing(Got(s.calls[i].reply.value)), reply := None)])
  }

  function Log(s: State, e: Event): State {
    s.(trace := s.trace + [e])
  }

  function DoPush(cfg: Config, s: State, i: CallId): State
    requires s.b.closes != [] && i < |s.calls| && s.calls[i].op.Push?
  {
    var op := s.calls[i].op;
    var (b, outcome) := PushSection(s.b, cfg.cap, op.channel, op.payload);
    var d := Delivery(op.channel, op.payload);
    match outcome
    case HandedTo(w) =>
      var s1 := Goto(s.(b := b), i, PushSending(w));
      var s2 := if w < |s.calls| then s1.(calls := s1.calls[w := s1.calls[w].(helper := Some(i))]) else s1;
      Log(s2, HandOff(i, w, d))
    case Appended => Log(Goto(s.(b := b), i, Finishing(Ok)), Enqueue(i, d))
    case MustWait(signal) => Log(Goto(s.(b := b), i, PushBlocked(signal)), FoundFull(i))
  }

  function DoPop(s: State, i: CallId): State
    requires s.b.closes != [] && i < |s.calls| && s.calls[i].op.Pop?
  {
    var (b, outcome) := PopSection(s.b, i, s.calls[i].op.channels, s.calls[i].cancelled);
    match outcome
    case Took(d) => Log(Goto(s.(b := b), i, Finishing(Got(d))), Dequeue(i, d))
    case GaveUp => Log(Goto(s.(b := b), i, Finishing(Timeout)), FoundEmpty(i))
    case Registered => Log(Goto(s.(b := b), i, PopWaiting), Register(i))
  }

  function DoRemove(s: State, i: CallId): State
    requires i < |s.calls|
  {
    var (b, removed) := CancelSection(s.b, i);
    if removed then Log(Goto(s.(b := b), i, PopRemoved), FoundEmpty(i))
    else Goto(s.(b := b), i, PopMustReceive)
  }

  function DoSend(s: State, i: CallId): State
    requires i < |s.calls| && s.calls[i].op.Push? && s.calls[i].pc.PushSending? && s.calls[i].pc.to < |s.calls|
  {
    var w, op := s.calls[i].pc.to, s.calls[i].op;
    var s1 := Goto(s, i, Finishing(Ok));
    s1.(calls := s1.calls[w := s1.calls[w].(reply := Some(Delivery(op.channel, op.payload)))])
  }

  function Do(cfg: Config, s: State, a: Action): State
    requires Enabled(cfg, s, a)
  {
    match a
    case Invoking(op) =>
      Log(s.(calls := s.calls + [Call(op, false, Start, None, None)]), Invoke(|s.calls|, op))
    case Cancelling(i) => Log(s.(calls := s.calls[i := s.calls[i].(cancelled := true)]), Cancel(i))
    case Rejecting(i) => Goto(s, i, Finishing(Rejected))
    case PushLocked(i) => DoPush(cfg, s, i)
    case Waking(i) => Goto(s, i, PushRetry)
    case PushGivingUp(i) => Goto(s, i, Finishing(Timeout))
    case Sending(i) => DoSend(s, i)
    case PopLocked(i) => DoPop(s, i)
    case Receiving(i) => Receive(s, i)
    case PopGivingUp(i) => Goto(s, i, PopCancelling)
    case Removing(i) => DoRemove(s, i)
    case ReceivingLate(i) => Receive(s, i)
    case Selecting(i) => if s.calls[i].reply.Some? then Receive(s, i) else Goto(s, i, Finishing(Timeout))
    case Returning(i) =>
      var r := s.calls[i].pc.result;
      Log(Goto(s, i, Done(r)), Return(i, r))
  }

  /** `acts` is a run from the initial state: each action is enabled in turn. */
  predicate Runs(cfg: Config, acts: seq<Action>)
    decreases |acts|, 0
  {
    acts == [] || (Runs(cfg, Init(acts)) && Enabled(cfg, Exec(cfg, Init(acts)), Last(acts)))
  }

  /** The state a run leads to. */
  function Exec(cfg: Config, acts: seq<Action>): State
    requires Runs(cfg, acts)
    decreases |acts|, 1
  {
    if acts == [] then INITIAL_STATE else Do(cfg, Exec(cfg, Init(acts)), Last(acts))
  }

  /** `s` is the state after some run. */
  ghost predicate Reached(cfg: Config, s: State) {
    exists acts :: Runs(cfg, acts) && Exec(cfg, acts) == s
  }

  /** Some run that has come to `s` can go on to `s'`. */
  ghost predicate Leads(cfg: Config, s: State, s': State) {
    exists acts, all ::
      acts <= all && Runs(cfg, acts) && Exec(cfg, acts) == s && Runs(cfg, all) && Exec(cfg, all) == s'
  }

  lemma StartIsReached(cfg: Config)
    ensures Reached(cfg, INITIAL_STATE)
  {
    assert Runs(cfg, []) && Exec(cfg, []) == INITIAL_STATE;
  }

  lemma LeadsSelf(cfg: Config, s: State)
    requires Reached(cfg, s)
    ensures Leads(cfg, s, s)
  {
  }

  lemma LeadsReached(cfg: Config, s: State, s': State)
    requires Leads(cfg, s, s')
    ensures Reached(cfg, s) && Reached(cfg, s')
  {
  }

  lemma LeadsStep(cfg: Config, s0: State, s: State, a: Action) returns (s': State)
    requires Leads(cfg, s0, s) && Enabled(cfg, s, a)
    ensures s' == Do(cfg, s, a) && Leads(cfg, s0, s')
  {
    var acts, all :|
      acts <= all && Runs(cfg, acts) && Exec(cfg, acts) == s0 && Runs(cfg, all) && Exec(cfg, all) == s;
    s' := Do(cfg, s, a);
    var all' := all + [a];
    assert Init(all') == all;
    assert Runs(cfg, all') && Exec(cfg, all') == s' && acts <= all';
  }
}
