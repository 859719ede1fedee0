/** The broker's lock-held sections as methods over the fields they update:
    the queue map, the waiter slice with its backing array, the byte counter
    and the drain signal. Each method is proved to be its pure section. */
module Broker {
  import opened Types
  import opened BrokerSections

  /** A Go channel that is only ever closed; closing it twice would panic. */
  class Signal {
    var closes: nat

    constructor ()
      ensures closes == 0
    {
      closes := 0;
    }

    method Close()
      requires closes == 0
      modifies this
      ensures closes == 1
    {
      closes := closes + 1;
    }
  }

  class WaiterCell {
    ghost const id: CallId
    const channels: seq<Channel>
    var reply: Option<Delivery>

    constructor (ghost id: CallId, channels: seq<Channel>)
      ensures this.id == id && this.channels == channels && reply.None?
    {
      this.id := id;
      this.channels := channels;
      reply := None;
    }

    /** The send to `reply`, whose buffer has one place. That it is free when a
        push sends is `HandOffAlwaysCompletes`. */
    method Send(d: Delivery)
      requires reply.None?
      modifies this
      ensures reply == Some(d)
    {
      reply := Some(d);
    }

    /** The plain receive, which waits for a message to be there. */
    method Receive() returns (d: Delivery)
      requires reply.Some?
      modifies this
      ensures old(reply) == Some(d) && reply.None?
    {
      d := reply.value;
      reply := None;
    }

    /** The receive of a select with a default. */
    method TryReceive() returns (d: Option<Delivery>)
      modifies this
      ensures d == old(reply) && reply.None?
    {
      d := reply;
      reply := None;
    }

    method Matches(channel: Channel) returns (found: bool)
      ensures found <==> channel in channels
    {
      for k := 0 to |channels|
        invariant channel !in channels[..k]
      {
        if channels[k] == channel {
          return true;
        }
      }
      return false;
    }
  }

  /** What a list of waiters looks like to the pure sections. */
  ghost function WaitersOf(cells: seq<WaiterCell?>): (r: seq<Waiter>)
    requires null !in cells
    ensures |r| == |cells| && forall k | 0 <= k < |cells| :: r[k] == Waiter(cells[k].id, cells[k].channels)
  {
    seq(|cells|, k requires 0 <= k < |cells| => Waiter(cells[k].id, cells[k].channels))
  }

  class Broker {
    const maxQueuedBytes: int
    var queues: Queues
    var waiters: array<WaiterCell?>
    var count: nat
    var queuedBytes: int
    var drainSignal: Signal
    ghost var signals: seq<Signal>
    ghost var closes: seq<nat>

    /** `waiters[..count]` is the slice; the rest of its array is cleared. The
        drain signal is the last of all signals made, and still open; `closes`
        says how often each of them was closed. */
    ghost predicate Valid()
      reads this, waiters, signals
    {
      && count <= waiters.Length
      && (forall k | 0 <= k < count :: waiters[k] != null)
      && (forall k | count <= k < waiters.Length :: waiters[k] == null)
      && signals != [] && signals[|signals| - 1] == drainSignal && drainSignal.closes == 0
      && |closes| == |signals| && (forall k | 0 <= k < |signals| :: signals[k].closes == closes[k])
      && (forall k, l | 0 <= k < l < |signals| :: signals[k] != signals[l])
    }

    ghost function View(): Shared
      requires Valid()
      reads this, waiters, signals
    {
      Shared(queues, WaitersOf(waiters[..count]), queuedBytes, closes)
    }

    constructor (maxQueuedBytes: int)
      ensures Valid() && View() == EMPTY_BROKER && this.maxQueuedBytes == maxQueuedBytes
      ensures fresh(waiters) && fresh(drainSignal)
    {
      this.maxQueuedBytes := maxQueuedBytes;
      queues := map[];
      waiters := new WaiterCell?[0];
      count := 0;
      queuedBytes := 0;
      var s := new Signal();
      drainSignal := s;
      signals, closes := [s], [0];
    }

    /** Shift the tail of the slice down over position `i`, in place. */
    method RemoveWaiterAtLocked(i: nat)
      requires Valid() && i < count
      modifies this`count, waiters
      ensures Valid()
      ensures View() == old(View()).(waiters := Without(old(View()).waiters, i))
      ensures waiters[..count] == Without(old(waiters[..count]), i)
    {
      var last := count - 1;
      var j := i;
      while j < last
        invariant i <= j <= last
        invariant forall k | 0 <= k < i :: waiters[k] == old(waiters[k])
        invariant forall k | i <= k < j :: waiters[k] == old(waiters[k + 1])
        invariant forall k | j <= k < waiters.Length :: waiters[k] == old(waiters[k])
      {
        waiters[j] := waiters[j + 1];
        j := j + 1;
      }
      waiters[last] := null;
      count := last;
      assert waiters[..count] == Without(old(waiters[..count]), i);
      assert WaitersOf(waiters[..count]) == Without(old(WaitersOf(waiters[..count])), i);
    }

    /** Find `target` by identity and take it out of the slice. */
    method RemoveWaiterLocked(target: WaiterCell) returns (removed: bool)
      requires Valid()
      requires forall k | 0 <= k < count && waiters[k].id == target.id :: waiters[k] == target
      modifies this`count, waiters
      ensures Valid()
      ensures (View(), removed) == CancelSection(old(View()), target.id)
    {
      ghost var ws := View().waiters;
      for i := 0 to count
        invariant unchanged(this) && unchanged(waiters) && Valid()
        invariant forall k | 0 <= k < i :: ws[k].id != target.id
      {
        if waiters[i] == target {
          assert PositionOf(ws, target.id) == i;
          RemoveWaiterAtLocked(i);
          return true;
        }
      }
      return false;
    }

    /** An emptied queue loses its key. */
    method DropHead(channel: Channel) returns (payload: Payload)
      requires QueueOf(queues, channel) != []
      modifies this`queues
      ensures payload == QueueOf(old(queues), channel)[0]
      ensures queues == SetQueue(old(queues), channel, QueueOf(old(queues), channel)[1..])
    {
      var queue := queues[channel];
      payload := queue[0];
      if |queue| == 1 {
        queues := queues - {channel};
      } else {
        queues := queues[channel := queue[1..]];
      }
    }

    method CloseDrainSignal()
      requires Valid()
      modifies this`drainSignal, this`signals, this`closes, drainSignal
      ensures Valid() && fresh(drainSignal) && signals == old(signals) + [drainSignal]
      ensures View() == old(View()).(closes := Rotate(old(View()).closes))
      ensures unchanged(waiters)
    {
      drainSignal.Close();
      var s := new Signal();
      drainSignal := s;
      signals, closes := signals + [s], Rotate(closes);
    }

    /** Remove the head of a non-empty queue, account for it, and wake every
        blocked push by closing the drain signal. */
    method TakeHead(channel: Channel) returns (payload: Payload)
      requires Valid() && QueueOf(queues, channel) != []
      modifies this`queues, this`queuedBytes, this`drainSignal, this`signals, this`closes, drainSignal
      ensures Valid() && unchanged(waiters)
      ensures payload == QueueOf(old(queues), channel)[0]
      ensures View() == old(View()).(
                queues := SetQueue(old(queues), channel, QueueOf(old(queues), channel)[1..]),
                queuedBytes := old(queuedBytes) - |payload|,
                closes := Rotate(old(View()).closes))
    {
      payload := DropHead(channel);
      queuedBytes := queuedBytes - |payload|;
      CloseDrainSignal();
    }

    /** Take the head of the first requested channel that has one. */
    method PopQueuedLocked(channels: seq<Channel>) returns (taken: Option<Delivery>)
      requires Valid()
      modifies this`queues, this`queuedBytes, this`drainSignal, this`signals, this`closes, drainSignal
      ensures Valid() && unchanged(waiters)
      ensures (View(), taken) == TakeQueued(old(View()), channels)
    {
      for k := 0 to |channels|
        invariant unchanged(this) && unchanged(waiters) && unchanged(drainSignal)
        invariant forall j | 0 <= j < k :: QueueOf(queues, channels[j]) == []
      {
        if QueueOf(queues, channels[k]) != [] {
          assert FirstQueued(queues, channels) == k;
          var payload := TakeHead(channels[k]);
          return Some(Delivery(channels[k], payload));
        }
      }
      return None;
    }

    /** Scan the waiters in order and remove the first that wants `channel`. */
    method RemoveFirstMatch(channel: Channel) returns (target: WaiterCell?)
      requires Valid()
      modifies this`count, waiters
      ensures Valid()
      ensures var ws := old(View()).waiters; var k := FirstMatch(ws, channel);
              if k == |ws| then target == null && View() == old(View())
              else target != null && target == old(waiters[..count])[k]
                   && View() == old(View()).(waiters := Without(ws, k))
    {
      ghost var ws := View().waiters;
      for i := 0 to count
        invariant unchanged(this) && unchanged(waiters)
        invariant forall k | 0 <= k < i :: channel !in ws[k].channels
      {
        var w := waiters[i];
        assert ws[i] == Waiter(w.id, w.channels);
        var found := w.Matches(channel);
        if found {
          assert FirstMatch(ws, channel) == i;
          RemoveWaiterAtLocked(i);
          return w;
        }
      }
      return null;
    }

    /** One pass of the loop in `push`. Exactly one of three things happens:
        a waiter is removed and returned, the payload is appended, or the
        signal to wait for is returned. */
    method PushLocked(channel: Channel, payload: Payload) returns (target: WaiterCell?, signal: Signal?)
      requires Valid()
      modifies this`queues, this`queuedBytes, this`count, waiters
      ensures Valid()
      ensures View() == PushSection(old(View()), maxQueuedBytes, channel, payload).0
      ensures match PushSection(old(View()), maxQueuedBytes, channel, payload).1
              case HandedTo(id) => target != null && target in old(waiters[..count]) && target.id == id && signal == null
              case Appended => target == null && signal == null
              case MustWait(k) => target == null && k < |signals| && signal == signals[k]
    {
      signal := null;
      target := RemoveFirstMatch(channel);
      if target != null {
        return;
      }
      if queuedBytes + |payload| <= maxQueuedBytes {
        queues := queues[channel := QueueOf(queues, channel) + [payload]];
        queuedBytes := queuedBytes + |payload|;
      } else {
        signal := drainSignal;
      }
    }

    /** A full backing array is replaced by a larger one. */
    method Grow()
      requires Valid() && count == waiters.Length
      modifies this`waiters
      ensures Valid() && fresh(waiters) && count < waiters.Length
      ensures waiters[..count] == old(waiters[..count])
      ensures View() == old(View())
    {
      var bigger := new WaiterCell?[2 * count + 1](_ => null);
      for k := 0 to count
        invariant unchanged(this) && unchanged(waiters)
        invariant forall j | 0 <= j < k :: bigger[j] == waiters[j]
        invariant forall j | k <= j < bigger.Length :: bigger[j] == null
      {
        bigger[k] := waiters[k];
      }
      waiters := bigger;
      assert waiters[..count] == old(waiters[..count]);
    }

    /** `append(b.waiters, w)`: the array is replaced when it is full. */
    method AppendWaiter(w: WaiterCell)
      requires Valid()
      modifies this`waiters, this`count, waiters
      ensures Valid()
      ensures View() == old(View()).(waiters := old(View()).waiters + [Waiter(w.id, w.channels)])
      ensures waiters[..count] == old(waiters[..count]) + [w]
    {
      if count == waiters.Length {
        Grow();
      }
      waiters[count] := w;
      count := count + 1;
      assert waiters[..count] == old(waiters[..count]) + [w];
      assert WaitersOf(waiters[..count]) == old(WaitersOf(waiters[..count])) + [Waiter(w.id, w.channels)];
    }

    /** The first lock-held section of `Pop`: take a message, give up, or
        register a new waiter and return it. */
    method PopLocked(ghost id: CallId, channels: seq<Channel>, cancelled: bool)
      returns (taken: Option<Delivery>, waiter: WaiterCell?)
      requires Valid()
      modifies this, waiters, drainSignal
      ensures Valid()
      ensures var (b, outcome) := PopSection(old(View()), id, channels, cancelled);
              && View() == b
              && match outcome
                 case Took(d) => taken == Some(d) && waiter == null
                 case GaveUp => taken == None && waiter == null
                 case Registered => taken == None && waiter != null && fresh(waiter) && waiter.id == id
                                    && waiter.channels == channels && waiter.reply.None?
                                    && waiters[..count] == old(waiters[..count]) + [waiter]
    {
      waiter := null;
      taken := PopQueuedLocked(channels);
      if taken.Some? || cancelled {
        return;
      }
      waiter := new WaiterCell(id, channels);
      AppendWaiter(waiter);
    }
  }
}
