# Atomic queue: a verified model

`atomic-queue` is a local message queue: one daemon with named in-memory
channels, producers that push and consumers that pop from one or more channels,
over a small binary protocol on a Unix socket. This project models the broker at
the heart of the daemon, the wire protocol with its Go, Python and PHP ends, the
connection loop, and the small state machines of `main.go`, and proves what they
promise. Check it with `dafny verify dfyconfig.toml`.

## How it is built

**The broker** is described three times.

- `BrokerSections` says, as pure functions, what each lock-held section of
  `broker.go` does to the fields under the mutex.
- `Broker` has the same sections as methods over the fields themselves: the queue
  map, the waiter slice with its backing array and its in-place shift, the byte
  counter, the drain signal. Each method is proved to be its pure section.
- `BrokerRuns` is the whole broker as a transition system over any number of
  push and pop calls. Each call has a program counter; an action is one
  lock-held section or one unlocked step (the send to the reply channel, a
  receive, a wake-up, a cancellation that may come at any moment). A run is any
  sequence of enabled actions.

`AtomicQueue` is the object the callers are promised: FIFO channels, a line of
waiting consumers and a byte cap, changed by one event at a time.
`BrokerInvariants` has the inductive invariant of all runs, and `BrokerRefinement`
shows that every run of the broker is a legal history of the atomic object: a push
takes effect when it appends or when it removes a waiter, a pop when it dequeues or
when a push removes its waiter, and a call that times out has no effect on the
queues. `Linearisation` proves, about legal histories alone, once-only effects,
real-time order, producer order and first come, first served. `BrokerTheorems`
collects what holds in every reachable state: exactly-once conservation, what is
rejected, the cancel race, the wake-up argument, byte accounting, and that no call is
ever stuck without a reason. `BrokerScenarios` shows what the broker can do, from any
reachable state: anyone may call, a waiting pop is handed the message of a push, a
cancelled pop that lost the race still returns it, a queued message is popped, a blocked
push is woken by a pop and appends, and every call can be brought to its return.

**The protocol** is a printer and a parser in `Wire`, with round trips in both
directions and self-delimiting frames. `WireFormat` fixes the format itself, in literal
bytes, limits and errors. `WireIO` has the writers and readers as they
run, field by field over a buffer and a cursor, proved against the parser.
`PythonClient` and `PhpClient` model the other two ends, `PythonClient` with its two
LRU frame caches. `Connection` is the loop that serves one
connection, over replies that some reachable state of the broker gives.

**The rest of main.go**: `ServeArgs` has the option loop and the cap computed by a
wrapping shift, `BlockNotifier` the compare-and-swap rate limiter, `PopArgs` the
argument filter that writes into the slice it is reading; `LongOptions` has the two
helpers their argument loops share, and command lines as a user writes them.

Integers are unbounded and every wrap-around of the source is written out.
`ServeArgs.AccountingNeverOverflows` shows that the broker's own sums need none.
Strings of Go are byte strings; Python strings are sequences of code points.

## What turned out not to hold as one might expect

- `gbytes << 30` is the number of GiB asked for only below 2^33. Larger numbers wrap
  and may be accepted: 2^34 + 1 gives a cap of one GiB
  (`ServeArgs.CapIsExactIff`, `ServeArgs.WrappedCapIsAccepted`).
- The rate limiter keeps its notices ten seconds apart if and only if the clock never
  shows zero, which doubles as the mark for "no notice yet", and never goes back so far
  that the 64-bit difference of two readings wraps around to ten seconds or more
  (`BlockNotifier.SpacedIffClockIsSane`). A positive clock meets both conditions, even
  one that goes backwards (`BlockNotifier.PositiveClockIsSpaced`); never showing zero is
  not enough (`BlockNotifier.NonZeroIsNotEnough`).
- A timeout in milliseconds reaches the broker unchanged if and only if its
  nanoseconds fit in 64 bits (`Connection.TimeoutIsExactIff`); a longer one can become
  negative or less than a millisecond (`Connection.LongTimeoutsWrap`).
- The PHP client checks none of the limits of the protocol; its frame means the
  request if and only if the request is within them
  (`PhpClient.FrameDecodesIffEncodable`); a name of 65536 bytes is read as the empty name
  (`PhpClient.LongNameIsMisread`).
- `writeRequest` is all or nothing except in one case, and in that case never: the op,
  the number of channels and the payload pass its checks, and some channel name is over
  65535 bytes (`WireIO.WriteRequest`, `WireIO.AllOrNothingIff`). The fields before that
  name are then in the buffer, and read as a truncated request
  (`WireIO.LeftPartIsTruncated`).

## Model

| member | source | states |
|---|---|---|
| Broker.Broker.constructor | broker.go:43-50 | a new broker has no queues, no waiters, no bytes and one open drain signal |
| Broker.Signal.Close | broker.go:173 | a signal is closed only while open, so closing never panics |
| Broker.WaiterCell.Matches | broker.go:199-206 | the scan finds a channel exactly if the waiter asked for it |
| Broker.WaiterCell.Send | broker.go:81 | the send fills the empty one-place buffer |
| Broker.WaiterCell.Receive | broker.go:139-147 | a receive takes the buffered message and empties the buffer |
| Broker.WaiterCell.TryReceive | broker.go:150-155 | the receive with a default takes what is there, if anything |
| Broker.Broker.RemoveWaiterAtLocked | broker.go:192-197 | the in-place shift removes the i-th waiter, keeps all others in order and clears the freed cell |
| Broker.Broker.RemoveWaiterLocked | broker.go:180-190 | the search by identity removes that waiter and says whether it was there |
| Broker.Broker.DropHead | broker.go:166-171 | the head leaves its queue and an emptied queue loses its key |
| Broker.Broker.CloseDrainSignal | broker.go:173-174 | the current signal is closed once and a fresh open one takes its place |
| Broker.Broker.TakeHead | broker.go:166-175 | taking a head updates queue, byte counter and signal together and leaves the waiters alone |
| Broker.Broker.PopQueuedLocked | broker.go:159-178 | the first requested channel with a message gives up its head; otherwise nothing changes |
| Broker.Broker.RemoveFirstMatch | broker.go:74-79 | the scan removes and returns the earliest waiter that wants the channel, or changes nothing |
| Broker.Broker.Grow | broker.go:135 | a full backing array is replaced by a larger one with the same waiters |
| Broker.Broker.PushLocked | broker.go:73-107 | one pass hands off, appends or returns the signal to wait for, exactly as the pure section says |
| Broker.Broker.AppendWaiter | broker.go:135 | appending, with or without a new backing array, puts the waiter last |
| Broker.Broker.PopLocked | broker.go:121-136 | a pop takes a message, gives up when its context is done, or registers a fresh waiter last in the list |
| BrokerInvariants.PushSectionOk | broker.go:73-107 | the push section keeps byte accounting, open signal, non-empty queues and work conservation |
| BrokerInvariants.TakeQueuedOk | broker.go:159-178 | dequeuing keeps the same, takes only from a requested channel, and finds nothing only if all are empty |
| BrokerInvariants.PopSectionOk | broker.go:121-136 | pop-or-register keeps them: a waiter registers only when all its channels are empty |
| BrokerInvariants.RemovingCall | broker.go:142-144 | a cancelled waiter is found in the list exactly if no push has removed it |
| BrokerInvariants.Step | broker.go:60-157 | every action of every call keeps the whole invariant |
| BrokerInvariants.RunKeepsInv | broker.go:60-157 | the invariant holds after every run of any number of calls |
| BrokerInvariants.ReachedInv | broker.go:60-157 | the invariant holds in every reachable state |
| BrokerRefinement.RefinesHandOff | broker.go:74-83 | removing a waiter decides the push and the helped pop at once, and is a legal hand-off to the first in line |
| BrokerRefinement.RefinesPush | broker.go:72-107 | append and block are legal atomic events too |
| BrokerRefinement.RefinesPop | broker.go:121-136 | dequeue, giving up and registering are legal atomic events |
| BrokerRefinement.RefinesRemoving | broker.go:142-155 | removal on cancel decides the timeout while all channels are empty; a lost race changes nothing |
| BrokerRefinement.RefinesSending | broker.go:81 | the send is invisible: the pop was decided before |
| BrokerRefinement.RefinesReceiving | broker.go:139-148 | the receive is invisible: the pop was decided when its waiter was removed |
| BrokerRefinement.RefinesInternal | broker.go:97-155 | rejecting, waking, giving up and the final select are invisible to the atomic queue |
| BrokerRefinement.RunRefines | broker.go:60-157 | the trace of every run is a legal history of the atomic FIFO queue, and the state is what it says |
| BrokerRefinement.ReachedRefines | broker.go:60-157 | every reachable state is the one its own legal history leads to |
| BrokerTheorems.RunIsLinearisable | broker.go:60-157 | every run is linearisable: legal order of effects, one effect per call within the call, real-time order |
| BrokerTheorems.BrokerFifo | broker.go:74-107 | on every channel, accepted messages = assigned messages followed by the queue, in order |
| BrokerTheorems.ExactlyOnce | broker.go:72-156 | every accepted message is queued, in a push's hands, buffered or taken, and each copy is in one place |
| BrokerTheorems.TimedOutPushIsNowhere | broker.go:97-101 | a push that timed out or was rejected is among no channel's messages |
| BrokerTheorems.OkMeansAccepted | broker.go:72-108 | a push that returned success had its message accepted on its channel |
| BrokerTheorems.GotMeansAssigned | broker.go:120-156 | a pop that returned a message was assigned it, from a channel it asked for |
| BrokerTheorems.PushRejectedIff | broker.go:61-66 | a push is rejected exactly if its channel is invalid or its payload too long |
| BrokerTheorems.PopRejectedIff | broker.go:111-118 | a pop is rejected exactly if it asks for no channel or for an invalid one |
| BrokerTheorems.TimeoutNeedsCancel | broker.go:97-154 | only a call whose context ended times out |
| BrokerTheorems.AcceptedAreValid | broker.go:61-66 | every accepted message has a valid channel and a payload within the cap |
| BrokerTheorems.QueuedAreValid | broker.go:61-66 | so has every queued one |
| Types.ChannelPattern | main.go:37 | a channel is valid exactly if it matches the pattern, character by character |
| Types.ChannelExamples | main.go:37 | 128 bytes pass, 129 do not; neither do the empty name, ".a" and "a/b" |
| Types.PayloadLimit | main.go:456-461 | the per-message cap is 256 MiB, itself included |
| BrokerTheorems.CancelRace | broker.go:131-156 | a listed waiter has an empty buffer and no sender; a removed one is owed exactly one message, buffered or about to be sent by exactly one push |
| BrokerTheorems.HandOffAlwaysCompletes | broker.go:79-152 | the send never blocks, the plain receive is always served, the receive case of the last select is never taken |
| BrokerTheorems.TimedOutPopLosesNothing | broker.go:141-155 | no message was ever assigned to a pop that timed out |
| BrokerTheorems.NoLostWakeUp | broker.go:85-103 | current signal open, earlier ones closed once; a blocked push can wake or does not fit; with empty queues none that fits is stuck |
| BrokerTheorems.FittingPushSucceeds | broker.go:72-108 | a push at the lock whose payload fits places its message in that section |
| BrokerTheorems.WorkConservation | broker.go:121-136 | no registered waiter wants a channel with a queued message |
| BrokerTheorems.ByteAccounting | broker.go:105-172 | the counter is the total of all queued payloads, within the cap, and no key has an empty queue |
| BrokerTheorems.DeliveriesAreValid | broker.go:61-66 | what a pop returns is a requested valid channel and a payload within the per-message cap |
| BrokerTheorems.Progress | broker.go:60-157 | a call is done, can step, awaits an enabled send, waits with empty channels, or does not fit |
| BrokerScenarios.AnyoneMayCall | broker.go:60-119 | in every reachable state any call can be made |
| BrokerScenarios.WaiterIsServed | broker.go:74-83 | from any state with a waiting pop first in line, a push hands it its message, both return, and nothing else changes |
| BrokerScenarios.CancelledWaiterIsServed | broker.go:141-148 | the same when the context of the pop ends in between: it loses the race and returns the message |
| BrokerScenarios.QueuedIsPopped | broker.go:121-125 | from any state, a pop takes the head of the first requested channel that has a message |
| BrokerScenarios.PopWaits | broker.go:131-136 | a pop whose channels are all empty waits last in line |
| BrokerScenarios.PushIsQueued | broker.go:105-108 | a push that nobody waits for and that fits is queued last and returns |
| BrokerScenarios.PushBlocks | broker.go:89-100 | one that does not fit blocks on the current signal and changes nothing |
| BrokerScenarios.BlockedIsWoken | broker.go:85-107 | from any state with a blocked push, a pop that makes room wakes it, and it appends |
| BrokerScenarios.CallsMeet | broker.go:60-157 | there is a run from the start in which a waiting pop, cancelled or not, is handed the message of a push |
| BrokerScenarios.BlockedPushGetsIn | broker.go:60-157 | there is a run from the start in which a push blocks, is woken by a pop and appends |
| BrokerScenarios.EveryCallCanFinish | broker.go:60-157 | from every reachable state every call can be brought to its return |
| BrokerScenarios.EveryCallCanReturn | broker.go:60-157 | alone, a call is rejected for its arguments, succeeds as a push that fits, or times out when its context ends |
| AtomicQueue.Fifo | broker.go:159-178 | in a legal history the messages leave each channel in the order in which they were accepted |
| Linearisation.CallHistory | broker.go:60-157 | a call has one invocation, at most one deciding event and one return, in this order, with that result |
| Linearisation.RealTimeOrder | broker.go:60-157 | a call that returned before another began took effect before it |
| Linearisation.ReturnDecided | broker.go:82-156 | a returned result was decided at exactly one event of the call, or the call had no effect |
| Linearisation.PopTimeoutSawEmpty | broker.go:121-154 | a pop that times out had an instant under the lock at which all its channels were empty |
| Linearisation.PushTimeoutSawFull | broker.go:85-101 | a push that times out had an instant at which it did not fit, and no effect |
| Linearisation.AcceptedOnce | broker.go:105 | no push is accepted twice, on one channel or on two |
| Linearisation.AcceptedIff | broker.go:74-108 | exactly the successful pushes to a channel are accepted there, each with its own payload |
| Linearisation.AssignedOnce | broker.go:120-156 | no pop is assigned two messages, from one channel or from two |
| Linearisation.AssignedIff | broker.go:120-156 | exactly the pops that return a message are assigned it, from that channel and with that payload |
| Linearisation.ProducerOrder | broker.go:105 | successive pushes of one caller to one channel are accepted in that order |
| Linearisation.LineOrder | broker.go:135 | the waiters stand in registration order |
| Linearisation.FirstComeFirstServed | broker.go:74-82 | no waiter is handed a message that an earlier registered waiter still wants |
| Linearisation.NoOvertaking | broker.go:121-125 | a newcomer takes no queued message that an earlier registered waiter still wants |
| Wire.RequestRoundTrip | protocol.go:24-118 | what writeRequest accepts, readRequest recovers exactly, leaving the bytes that follow |
| Wire.RequestCanonical | protocol.go:71-118 | what readRequest accepts re-encodes to exactly the bytes consumed |
| Wire.StreamRoundTrip | protocol.go:24-118 | concatenated requests decode to that list with exactly the remaining bytes left over |
| Wire.RequestErrorsAreFinal | protocol.go:71-118 | an error other than truncation does not depend on later input |
| Wire.RequestSelfDelimiting | protocol.go:71-118 | every strict prefix of a request frame fails as truncated input |
| Wire.ResponseRoundTrip | protocol.go:120-183 | what writeResponse accepts, readResponse recovers exactly |
| Wire.ResponseCanonical | protocol.go:150-183 | what readResponse accepts re-encodes to exactly the bytes consumed |
| Wire.ResponseSelfDelimiting | protocol.go:150-183 | every strict prefix of a response frame fails as truncated input |
| Wire.ResponseErrorsAreFinal | protocol.go:150-183 | a response error other than truncation does not depend on later input |
| Wire.TimeoutRoundTrip | protocol.go:45-80 | every signed 64-bit timeout, negative ones included, survives the wire |
| Wire.TimeoutCanonical | protocol.go:77-80 | any eight bytes are the encoding of the timeout they are read as |
| Wire.String16RoundTrip | protocol.go:185-222 | a string with a 16-bit length is read back exactly |
| Wire.Bytes32RoundTrip | protocol.go:204-251 | a byte field with a 32-bit length is read back exactly within the reader's limit |
| Wire.Strings16RoundTrip | protocol.go:51-97 | the channel names are read back exactly, in order |
| WireFormat.RequestTags | protocol.go:12-13 | a decoded request is a push exactly if its first byte is 1 and a pop exactly if it is 2 |
| WireFormat.ResponseTags | protocol.go:15-16 | a decoded response is OK exactly if its first byte is 1, and is otherwise marked 2 |
| WireFormat.OtherTagsAreRefused | protocol.go:109-116 | any other first byte on a request that is otherwise in order is refused |
| WireFormat.OtherStatusesAreRefused | protocol.go:174-181 | the same for responses |
| WireFormat.Limits | protocol.go:18-48 | 1024 channels, names of 65535 bytes, payloads of 256 MiB, error texts of 64 KiB |
| WireFormat.BigEndianDigit | protocol.go:22 | numbers are written most significant byte first |
| WireFormat.PushFrame | protocol.go:24-69 | a push frame byte for byte |
| WireFormat.PopFrame | protocol.go:24-69 | a pop frame with two channels and a timeout of three bytes, byte for byte |
| WireFormat.NegativeTimeoutBytes | protocol.go:45 | a negative timeout in two's complement |
| WireFormat.PushFrameIsRead | protocol.go:71-118 | the bytes of the push frame are read as that push |
| WireFormat.PopFrameIsRead | protocol.go:71-118 | the bytes of the pop frame are read as that pop |
| WireFormat.ResponseBytes | protocol.go:120-148 | a message and an error response byte for byte |
| WireFormat.HeadErrors | protocol.go:71-88 | which error a request ends with when its fixed fields break off or announce too many channels |
| WireFormat.NameErrors | protocol.go:212-222 | which error a name ends with; between its length and its bytes the input ends as end of file |
| WireFormat.PayloadErrors | protocol.go:232-251 | which error a payload ends with: the limit first, and after the length every end is unexpected |
| WireIO.WriteRequest | protocol.go:24-69 | which error occurs exactly when, and what is appended: one frame, nothing, or for a long name the fields before it |
| WireIO.AllOrNothingIff | protocol.go:24-69 | it appends the whole frame or nothing exactly if it is not that one case |
| WireIO.LeftPartIsTruncated | protocol.go:42-61 | what that case leaves is a non-empty strict prefix of the frame and reads as truncated input |
| WireIO.LongNameLeavesHead | protocol.go:51-54 | one failing request: a push to a name of 65536 bytes leaves the eleven bytes of the head |
| WireIO.WriteNames | protocol.go:51-61 | writes the names up to the first that is too long |
| WireIO.WriteResponse | protocol.go:120-148 | rejects before appending anything, or appends one whole frame |
| WireIO.Reader.ReadFull | protocol.go:237-244 | exactly n bytes, or end of file, or an unexpected end |
| WireIO.Reader.ReadString16 | protocol.go:212-222 | the cursor and the result are the parser's |
| WireIO.Reader.ReadBytes32 | protocol.go:232-251 | the same with the size limit, and an end of file inside the field is unexpected |
| WireIO.Reader.ReadNames | protocol.go:90-97 | the loop collects exactly the names the parser returns |
| WireIO.Reader.ReadRequest | protocol.go:71-118 | the reader returns the parser's request or its error, and stands where the parser stops |
| WireIO.Reader.ReadResponse | protocol.go:150-183 | the same for responses |
| PythonClient.PushFrameIsRequestFrame | examples/python/atomic_queue.py:123-137 | a push frame is byte for byte the daemon's encoding, and packs exactly for names within 65535 bytes |
| PythonClient.PopFrameIsRequestFrame | examples/python/atomic_queue.py:139-154 | a pop frame is the daemon's encoding, and packs exactly when its fields fit their widths |
| PythonClient.Utf8RoundTrip | examples/python/atomic_queue.py:126 | an independent decoder recovers every name that can be encoded |
| PythonClient.Utf8FailsIff | examples/python/atomic_queue.py:126 | exactly the names with a surrogate cannot be encoded |
| PythonClient.AsciiIsItself | examples/python/atomic_queue.py:126 | ASCII names are encoded as themselves |
| PythonClient.Utf8Examples | examples/python/atomic_queue.py:126 | one character of two, of three and of four bytes |
| PythonClient.FirstBadName | examples/python/atomic_queue.py:145-148 | the first name that does not pack decides the exception |
| PythonClient.RecentIsDistinct | examples/python/atomic_queue.py:178-183 | the recency list has each used key once |
| PythonClient.RecentIsOrdered | examples/python/atomic_queue.py:178-183 | the recency list is in order of last use |
| PythonClient.HitKeepsWindow | examples/python/atomic_queue.py:130 | moving a hit to the end gives the window of recent keys after that use |
| PythonClient.MissKeepsWindow | examples/python/atomic_queue.py:178-183 | putting a miss and evicting the oldest gives that window too |
| PythonClient.MoveToEndFollows | examples/python/atomic_queue.py:153 | a hit keeps the cache equal to the most recently used keys, with their values |
| PythonClient.CachePutFollows | examples/python/atomic_queue.py:178-183 | a miss keeps it so, within 256 entries |
| PythonClient.CacheSize | examples/python/atomic_queue.py:178-183 | the cache holds all keys while they are at most 256, and then the 256 most recent |
| PythonClient.Client.CachedHeader | examples/python/atomic_queue.py:124-130 | hit or miss, the header is the plain one and the cache follows the uses |
| PythonClient.Client.CachedPopFrame | examples/python/atomic_queue.py:140-153 | hit or miss, the frame is the plain one and the cache follows the uses |
| PythonClient.Client.PushFrame | examples/python/atomic_queue.py:131-136 | the frame extended part by part is the daemon's encoding, or the length does not pack |
| PythonClient.Client.SendPush | examples/python/atomic_queue.py:123-137 | over any history the bytes sent are the daemon's encodings of the requests; failures send nothing |
| PythonClient.Client.SendPop | examples/python/atomic_queue.py:139-154 | the same for pop, with the whole frame cached |
| PythonClient.Stream.ReadPrefixed | examples/python/atomic_queue.py:162-163 | a field is read with its announced length, or shorter at the end of the stream |
| PythonClient.Stream.ReadReply | examples/python/atomic_queue.py:156-176 | the reader returns the reply or raises as its specification says |
| PythonClient.AgreesWithReadResponse | examples/python/atomic_queue.py:156-176 | the daemon's reader accepts exactly what this one accepts with a known status and fields within the limits, with equal results |
| PythonClient.ReadsDaemonResponses | examples/python/atomic_queue.py:156-176 | every response the daemon writes is read back whole |
| PhpClient.PackInt64IsTwosComplement | scripts/php_atomic_queue_lib.php:167-172 | the hi/lo split is big-endian two's complement for every 64-bit value |
| PhpClient.FrameIsRequestFrame | scripts/php_atomic_queue_lib.php:88-100 | a PHP frame is the daemon's encoding of the request |
| PhpClient.FrameDecodesIffEncodable | scripts/php_atomic_queue_lib.php:88-100 | the daemon decodes it to that request exactly if the request is within the limits |
| PhpClient.LongNameIsMisread | scripts/php_atomic_queue_lib.php:92-95 | one failing request: a name of 65536 zero bytes is read as the empty name, and its bytes as the next request |
| PhpClient.Stream.ReadExact | scripts/php_atomic_queue_lib.php:137-152 | for every fragmentation, exactly the next n bytes, or the exception if the input ends before |
| PhpClient.Stream.WriteAll | scripts/php_atomic_queue_lib.php:154-165 | the whole data is written, or a strict prefix and a failure |
| PhpClient.Stream.WriteRequest | scripts/php_atomic_queue_lib.php:88-100 | the frame built in the loop is what is written |
| PhpClient.Stream.ReadString | scripts/php_atomic_queue_lib.php:120-135 | a length-prefixed field is read exactly |
| PhpClient.Stream.ReadResponse | scripts/php_atomic_queue_lib.php:105-118 | the method returns what the pure reader returns |
| PhpClient.ReadsLikePython | scripts/php_atomic_queue_lib.php:105-152 | both clients read every stream alike |
| PhpClient.ReadsDaemonResponses | scripts/php_atomic_queue_lib.php:105-118 | every response the daemon writes is read back whole |
| Connection.HandleConn | main.go:252-295 | the bytes written are the frames of the turns, and then perhaps part of a response that did not go out whole |
| Connection.ServeOne | main.go:253-294 | one pass ends in silence, with one error, or answers OK and goes on with the rest |
| Connection.Respond | main.go:284-290 | a response goes out whole exactly if it is within the limits and the socket takes its frame; else part of the frame, or nothing |
| Connection.OksThenAtMostOneError | main.go:252-295 | for every input: some OKs, then at most one error, and nothing after |
| Connection.AnswersInOrder | main.go:262-290 | the i-th answer from the broker is to the i-th request of the stream, asked with its fields; at most one more turn follows, which asked nothing |
| Connection.UnknownOpIsUnreachable | main.go:291-293 | no decoded request reaches the branch for an unknown op |
| Connection.DeliveriesAreSendable | main.go:284-288 | a delivery that Pop returns in any reachable state of the broker passes the size checks of writeResponse |
| Connection.AnswersAreSendable | main.go:267-290 | so an answer that the broker does not refuse goes out whole exactly if the socket takes it |
| Connection.SomeAnswer | main.go:267-280 | whatever is asked, the broker has a reply that a reachable state gives |
| Connection.AcceptedMeans | main.go:267-273 | a reply of success means that the payload was accepted on its channel |
| Connection.MessageMeans | main.go:275-283 | a message means that the broker assigned it to a pop of that channel |
| Connection.CleanSession | main.go:252-295 | n well-formed requests that are not refused, then the end of the stream, give n OKs, each the answer to its request, and nothing else |
| Connection.OutputDecodes | main.go:252-295 | the peer decodes the output to exactly the responses of the turns, and then finds nothing or the beginning of one more |
| Connection.EndIsSilent | main.go:254-257 | a clean end of the input ends the connection without a word |
| Connection.BadRequestIsAnswered | main.go:258-259 | any other failure to decode is answered with its text, and nothing follows |
| Connection.BadPushIsAnswered | main.go:264-266 | a push without exactly one channel is answered with an error, and nothing follows |
| Connection.PushIsAnswered | main.go:263-275 | a push is passed on with its channel and payload; OK or the error text is written, and only an OK goes on |
| Connection.PopIsAnswered | main.go:276-290 | a pop is passed on with its channels and timeout; the message itself or the error text is written |
| Connection.SentOf | protocol.go:120-148 | what is written of a response: the frame up to what the socket takes, or nothing beyond the limits |
| Connection.PeerReads | main.go:252-295 | for every input, the i-th response parsed from the bytes of the connection tells the reply to the i-th request |
| Connection.ServedAreTold | main.go:252-295 | when nothing goes wrong there is exactly one such response for each request, messages included |
| Connection.TimeoutIsExactIff | main.go:276 | a timeout in milliseconds is passed on exactly if its nanoseconds fit in 64 bits |
| Connection.LongTimeoutsWrap | main.go:276 | one millisecond too many gives a negative timeout, and some 584 years give less than a millisecond |
| ServeArgs.AcceptedCaps | main.go:626-629 | which numbers are accepted, and that the cap is a multiple of 2^30 in [2^30, 2^63 - 2^30] |
| ServeArgs.CapIsExactIff | main.go:626 | the accepted cap is the number asked for exactly below 2^33 GiB |
| ServeArgs.WrappedCapIsAccepted | main.go:626-629 | 2^34 + 1 GiB is accepted as one GiB |
| ServeArgs.ScanConcat | main.go:593-624 | the option loop depends on the options so far only through the settings |
| ServeArgs.LastOptionWins | main.go:593-621 | the last option of a kind wins over all before it, in both forms, and leaves the other alone |
| ServeArgs.SizeForms | main.go:605-620 | both forms of the size option set it, or fail on no number or one not positive |
| ServeArgs.SocketForms | main.go:597-604 | both forms of the socket option set it |
| ServeArgs.OtherArguments | main.go:597-622 | options without their value and anything that is no option fail, each with its error |
| ServeArgs.FailureStops | main.go:593-624 | an error other than a missing value stops the scan for good |
| ServeArgs.BeforeTheOptions | main.go:582-591 | without options the size is that of the environment or 4 GiB |
| ServeArgs.OptionsFollow | main.go:582-624 | an error of the environment comes first, and the options follow it |
| ServeArgs.ParseServeArgs | main.go:582-631 | the option loop gives the last setting of each kind or the first error, and only caps in range |
| ServeArgs.AccountingNeverOverflows | broker.go:85 | with any accepted cap the sum at the cap test stays below 2^63 in every run, and a valid payload fits an empty broker |
| BlockNotifier.RunsAreSpaced | main.go:552-560 | with a sane clock the invariant of the limiter holds in every interleaving |
| BlockNotifier.SpacedIffClockIsSane | main.go:552-560 | for any set of clock readings, winning timestamps are pairwise ten seconds apart in all runs exactly if zero is not among them and no difference backwards wraps to ten seconds |
| BlockNotifier.ZeroClockDefeatsIt | main.go:555 | after a notice at clock zero the next reading wins, whatever it is |
| BlockNotifier.WrapDefeatsIt | main.go:555 | a clock that goes back so far that the difference wraps gives two notices out of order |
| BlockNotifier.PositiveClockIsSpaced | main.go:553-560 | with a positive clock, which may go backwards, notices are always ten seconds apart |
| BlockNotifier.NonZeroIsNotEnough | main.go:555 | a clock that never shows zero and still defeats the limiter |
| PopArgs.ParseArgs | main.go:706-730 | the loop returns what the scan of the socket options returns |
| PopArgs.ScanSocketConcat | main.go:706-730 | the scan goes on where it stopped: only the socket and the positionals so far matter |
| PopArgs.ScanFailsIff | main.go:711-714 | it fails exactly when a last --socket is left without a value |
| PopArgs.ScannedHasNoSocket | main.go:706-730 | every positional was given and none is a socket option |
| PopArgs.ScanOfPlain | main.go:706-730 | arguments that are no socket options are all kept, in order |
| LongOptions.TrimOptionIff | main.go:732-734 | the value of an option is exactly what follows its name and the equals sign |
| LongOptions.EveryLine | main.go:706-730 | every argument list is plain arguments and options in two forms, but for a last option without its value |
| PopArgs.ScanOfLine | main.go:706-730 | the socket is the last one given or the default, and the other arguments stay in order |
| PopArgs.FilterInPlace | main.go:677-699 | writing into the slice being read gives the positionals, timeout and first error of two separate passes |
| PopArgs.ParsePopArgs | main.go:670-704 | the whole parse is the two passes over the scanned arguments |
| PopArgs.TimeoutOfLine | main.go:677-699 | a timeout that does not parse is the error, then a missing value; otherwise the last timeout counts |
| PopArgs.KeptOfLine | main.go:677-699 | what is kept are the plain arguments, in order |
| PopArgs.EveryPopLine | main.go:670-704 | what every argument list gives: each of the four errors exactly when it occurs, or socket, channels and timeout |
| PopArgs.OneTimeoutOption | main.go:677-699 | one timeout among plain arguments, in either form, is the timeout of the pop |
| PopArgs.PassesConcat | main.go:677-699 | both passes can be cut anywhere but between an option and its value |
| PopArgs.KeptHasNoOptions | main.go:677-699 | no kept argument is a timeout option, and each was given |
| PopArgs.KeptOfPlain | main.go:677-699 | arguments without timeout options are all kept |

## Left out

- Sockets, epoll, daemon start-up, signals, syslog output, environment and paths (`main.go:183-232`, `conn_watcher.go`): operating system plumbing. The end of a context is an action that may happen at any moment.
- Real time and `time.ParseDuration`: expiry is a cancellation at any moment, duration and integer parsing are parameters.
- I/O failures inside the protocol writers and readers; how much a socket takes of a response is a parameter of `Connection.Env`, and a delivery whose response is not written whole is lost, as in the source.
- Aliasing of payload slices (`PushOwned` against `Push`): payloads are values.
- The full `push` and `Pop` methods with their blocking waits: their lock-held sections, the send and the receives are methods of the classes, their waits are actions of the transition system.
- Wake-up of a blocked push when a matching waiter registers, and arrival order of blocked pushes: the source gives neither.
- Liveness under a fair scheduler: progress is stated as enabledness of a step in every reachable state, and as the existence of a run that brings a call to its return.
- The `onBlock` callback between unlock and select (`broker.go:95-97`): it touches no field of the broker; the notifier behind it is `BlockNotifier`.
- The stress runners, the standalone Go clients, the shell scripts and the benchmarks: load generation, and copies of the protocol layout.
- `parsePushArgs`, error wording, usage text and exit codes: they would only add easy members.
- Python's and PHP's connection set-up and daemon autostart: process plumbing.
