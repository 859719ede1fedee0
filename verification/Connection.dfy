/** One connection: `handleConn` reads requests, asks the broker, answers. The
    broker's replies, what the socket takes and the error texts are
    parameters. */
module Connection {
  import opened Types
  import opened Wire
  import opened WireIO
  import ServeArgs
  import AtomicQueue
  import BrokerRuns
  import BrokerTheorems
  import BrokerScenarios

  const MILLISECOND: int := 1_000_000

  /** What the connection asks of the broker. */
  datatype Ask = Push(channel: Bytes, payload: Payload) | Pop(channels: seq<Bytes>, timeoutNs: Int64)

  datatype BrokerReply = Accepted | Message(delivery: Delivery) | Refused(text: Bytes)

  /** `reply(k, ask)` is the broker's answer to the k-th request, `taken(k)` how
      many bytes the socket takes of the k-th response before it fails. */
  datatype Env = Env(
    reply: (nat, Ask) -> BrokerReply,
    taken: nat -> nat,
    decodeText: ReadError -> Bytes,
    oneChannelText: Bytes)

  const OK_RESPONSE := Response(true, [], [], [])

  function ErrorResponse(text: Bytes): Response {
    Response(false, [], [], text)
  }

  /** `time.Duration(ms) * time.Millisecond`, which wraps. */
  function TimeoutNs(ms: Int64): Int64 {
    ServeArgs.Wrap(ms * MILLISECOND)
  }

  /** A timeout in milliseconds reaches the broker unchanged exactly when its
      nanoseconds fit in 64 bits. */
  lemma TimeoutIsExactIff(ms: Int64)
    ensures TimeoutNs(ms) == ms * MILLISECOND <==> -9223372036854 <= ms <= 9223372036854
  {
  }

  /** One millisecond more than the most that fits gives a negative timeout,
      and some 584 years give less than one millisecond. */
  lemma LongTimeoutsWrap()
    ensures TimeoutNs(9223372036855) == -9223372036854551616
    ensures TimeoutNs(18446744073710) == 448384
  {
  }

  datatype Turn = Ask(ask: Ask, response: Response) | Protocol(response: Response)

  function AskOf(req: Request): Option<Ask> {
    if req.op == "push" then
      if |req.channels| == 1 then Some(Push(req.channels[0], req.payload)) else None
    else Some(Pop(req.channels, TimeoutNs(req.timeoutMS)))
  }

  /** What is answered to a broker reply. */
  function AnswerTo(r: BrokerReply): Response {
    match r
    case Accepted => OK_RESPONSE
    case Message(d) => Response(true, d.channel, d.payload, [])
    case Refused(text) => ErrorResponse(text)
  }

  /** A response goes out if it is within the limits and the socket takes
      all of its frame. */
  predicate GoesOut(env: Env, k: nat, r: Response) {
    Sendable(r) && |ResponseFrame(r)| <= env.taken(k)
  }

  /** What reaches the socket of the k-th response. */
  function Sent(env: Env, k: nat, r: Response): Bytes {
    if !Sendable(r) then []
    else if |ResponseFrame(r)| <= env.taken(k) then ResponseFrame(r)
    else ResponseFrame(r)[..env.taken(k)]
  }

  /** One round of the loop: it ends the connection with no further response
      but perhaps part of one, ends it with an error response, or answers OK
      and goes on with the rest. */
  datatype Round = Silence(part: Bytes) | Final(turn: Turn) | More(turn: Turn, rest: Bytes)

  function FinalIf(env: Env, k: nat, turn: Turn): Round {
    if GoesOut(env, k, turn.response) then Final(turn) else Silence(Sent(env, k, turn.response))
  }

  function RoundOf(env: Env, s: Bytes, k: nat): (round: Round)
    ensures round.More? ==> |round.rest| < |s| && round.turn.response.ok && round.turn.Ask?
    ensures round.Final? ==> !round.turn.response.ok
    ensures !round.Silence? ==> GoesOut(env, k, round.turn.response)
  {
    match ParseRequest(s)
    case Failed(e) =>
      if e.EndOfFile? then Silence([]) else FinalIf(env, k, Protocol(ErrorResponse(env.decodeText(e))))
    case Parsed(req, rest) =>
      RequestCanonical(s);
      match AskOf(req)
      case None => FinalIf(env, k, Protocol(ErrorResponse(env.oneChannelText)))
      case Some(ask) =>
        var turn := Turn.Ask(ask, AnswerTo(env.reply(k, ask)));
        if turn.response.ok && GoesOut(env, k, turn.response) then More(turn, rest) else FinalIf(env, k, turn)
  }

  /** The turns of a connection on input `s`, from its k-th request on. */
  function Turns(env: Env, s: Bytes, k: nat): seq<Turn>
    decreases |s|
  {
    match RoundOf(env, s, k)
    case Silence(_) => []
    case Final(turn) => [turn]
    case More(turn, rest) => [turn] + Turns(env, rest, k + 1)
  }

  /** What is written after the last turn: part of a response that did not go
      out whole, or nothing. */
  function Tail(env: Env, s: Bytes, k: nat): Bytes
    decreases |s|
  {
    match RoundOf(env, s, k)
    case Silence(part) => part
    case Final(_) => []
    case More(_, rest) => Tail(env, rest, k + 1)
  }

  function Responses(turns: seq<Turn>): (r: seq<Response>)
    ensures |r| == |turns| && forall i | 0 <= i < |turns| :: r[i] == turns[i].response
  {
    seq(|turns|, i requires 0 <= i < |turns| => turns[i].response)
  }

  function ResponseFrames(rs: seq<Response>): Bytes {
    if rs == [] then [] else ResponseFrame(rs[0]) + ResponseFrames(rs[1..])
  }

  /** Everything that is written for the input `s`, from the k-th request on. */
  function Output(env: Env, s: Bytes, k: nat): Bytes {
    ResponseFrames(Responses(Turns(env, s, k))) + Tail(env, s, k)
  }

  function ParseResponses(s: Bytes, n: nat): Parse<seq<Response>>
    decreases n
  {
    if n == 0 then Parsed([], s)
    else
      var (r, rest) :- ParseResponse(s);
      var (rs, rest') :- ParseResponses(rest, n - 1);
      Parsed([r] + rs, rest')
  }

  // ---------- The loop ----------

  lemma {:induction false} ResponseFramesSnoc(rs: seq<Response>, r: Response)
    ensures ResponseFrames(rs + [r]) == ResponseFrames(rs) + ResponseFrame(r)
    decreases |rs|
  {
    var f := ResponseFrame(r);
    if rs == [] {
      assert [] + [r] == [r] && [r][1..] == [];
      assert f + [] == f == [] + f;
    } else {
      ResponseFramesSnoc(rs[1..], r);
      assert (rs + [r])[1..] == rs[1..] + [r];
      Assoc(ResponseFrame(rs[0]), ResponseFrames(rs[1..]), f);
    }
  }

  /** `writeResponse` on a socket that may fail part-way: the frame is built
      in the buffer, and the flush passes on what the socket takes. */
  method Respond(env: Env, w: Writer, k: nat, r: Response) returns (sent: bool)
    modifies w
    ensures sent <==> GoesOut(env, k, r)
    ensures w.out == old(w.out) + Sent(env, k, r)
  {
    var buffer := new Writer();
    var failure := WriteResponse(buffer, r);
    if failure.Some? {
      return false;
    }
    var frame := buffer.out;
    assert frame == ResponseFrame(r);
    if env.taken(k) < |frame| {
      w.Write(frame[..env.taken(k)]);
      return false;
    }
    w.Write(frame);
    return true;
  }

  /** One pass of the loop in `handleConn`. */
  method ServeOne(env: Env, reader: Reader, w: Writer, k: nat) returns (more: bool)
    requires reader.Valid()
    modifies reader, w
    ensures reader.Valid() && reader.pos >= old(reader.pos)
    ensures match RoundOf(env, old(reader.Rest()), k)
            case Silence(part) => !more && w.out == old(w.out) + part
            case Final(turn) => !more && w.out == old(w.out) + ResponseFrame(turn.response)
            case More(turn, rest) =>
              && more && w.out == old(w.out) + ResponseFrame(turn.response)
              && reader.Rest() == rest && reader.pos > old(reader.pos)
  {
    var next := reader.ReadRequest();
    if next.Failure? {
      if next.error != EndOfFile {
        var _ := Respond(env, w, k, ErrorResponse(env.decodeText(next.error)));
      }
      return false;
    }
    var req := next.value;
    if req.op == "push" && |req.channels| != 1 {
      var _ := Respond(env, w, k, ErrorResponse(env.oneChannelText));
      return false;
    }
    var ask := if req.op == "push" then Push(req.channels[0], req.payload)
               else Pop(req.channels, TimeoutNs(req.timeoutMS));
    var r := AnswerTo(env.reply(k, ask));
    var sent := Respond(env, w, k, r);
    return sent && r.ok;
  }

  lemma Append(a: seq<Turn>, b: seq<Turn>, c: seq<Turn>)
    ensures a + (b + c) == (a + b) + c
    ensures a + [] == a
  {
  }

  lemma FinishTurns(turns: seq<Turn>, t: Turn)
    ensures ResponseFrames(Responses(turns + [t])) == ResponseFrames(Responses(turns)) + ResponseFrame(t.response)
  {
    assert Responses(turns + [t]) == Responses(turns) + [t.response];
    ResponseFramesSnoc(Responses(turns), t.response);
  }

  /** After `turns`, the connection has written `out` and stands at `s`. */
  ghost predicate SoFar(env: Env, input: Bytes, turns: seq<Turn>, s: Bytes, k: nat, out: Bytes) {
    && Turns(env, input, 0) == turns + Turns(env, s, k) && Tail(env, input, 0) == Tail(env, s, k)
    && out == ResponseFrames(Responses(turns))
  }

  ghost predicate Finished(env: Env, input: Bytes, out: Bytes) {
    out == ResponseFrames(Responses(Turns(env, input, 0))) + Tail(env, input, 0)
  }

  lemma RoundStep(env: Env, input: Bytes, turns: seq<Turn>, s: Bytes, k: nat, out: Bytes)
    requires SoFar(env, input, turns, s, k, out)
    ensures match RoundOf(env, s, k)
            case Silence(part) => Finished(env, input, out + part)
            case Final(turn) => Finished(env, input, out + ResponseFrame(turn.response))
            case More(turn, rest) => SoFar(env, input, turns + [turn], rest, k + 1, out + ResponseFrame(turn.response))
  {
    match RoundOf(env, s, k)
    case Silence(_) => Append(turns, [], []);
    case Final(turn) =>
      FinishTurns(turns, turn);
      assert out + ResponseFrame(turn.response) + [] == out + ResponseFrame(turn.response);
    case More(turn, rest) =>
      FinishTurns(turns, turn);
      Append(turns, [turn], Turns(env, rest, k + 1));
  }

  /** `handleConn`: the bytes it writes are the frames of its turns, and then
      perhaps part of a response that did not go out whole. */
  method HandleConn(env: Env, input: Bytes) returns (output: Bytes)
    ensures output == Output(env, input, 0)
  {
    var reader := new Reader(input);
    var w := new Writer();
    ghost var turns: seq<Turn> := [];
    var k, more := 0, true;
    assert [] + Turns(env, input, 0) == Turns(env, input, 0);
    while more
      invariant reader.Valid()
      invariant if more then SoFar(env, input, turns, reader.Rest(), k, w.out) else Finished(env, input, w.out)
      decreases more, |reader.data| - reader.pos
    {
      ghost var round := RoundOf(env, reader.Rest(), k);
      RoundStep(env, input, turns, reader.Rest(), k, w.out);
      more := ServeOne(env, reader, w, k);
      if round.More? {
        turns := turns + [round.turn];
      }
      k := k + 1;
    }
    return w.out;
  }

  // ---------- The transcript ----------

  /** Some number of OKs, then at most one error, and nothing after it. */
  predicate Transcript(turns: seq<Turn>) {
    forall i | 0 <= i < |turns| ::
      && Sendable(turns[i].response)
      && (turns[i].response.ok ==> turns[i].Ask?)
      && (i + 1 < |turns| ==> turns[i].response.ok)
  }

  lemma TranscriptMore(turn: Turn, later: seq<Turn>)
    requires Transcript(later) && turn.Ask? && turn.response.ok && Sendable(turn.response)
    ensures Transcript([turn] + later)
  {
  }

  /** The shape of every transcript, whatever the input. */
  lemma {:induction false} OksThenAtMostOneError(env: Env, s: Bytes, k: nat)
    ensures Transcript(Turns(env, s, k))
    decreases |s|
  {
    match RoundOf(env, s, k)
    case Silence(_) =>
    case Final(_) =>
    case More(turn, rest) =>
      OksThenAtMostOneError(env, rest, k + 1);
      TranscriptMore(turn, Turns(env, rest, k + 1));
  }

  /** `turn` passed `req` to the broker as its k-th request, and answers it. */
  predicate Answers(env: Env, turn: Turn, k: nat, req: Request) {
    turn.Ask? && AskOf(req) == Some(turn.ask) && turn.response == AnswerTo(env.reply(k, turn.ask))
  }

  /** The turns answer these requests one by one; at most one more turn
      follows, and that one did not ask the broker. */
  predicate AnswerAll(env: Env, turns: seq<Turn>, k: nat, reqs: seq<Request>) {
    && |reqs| <= |turns| <= |reqs| + 1
    && (forall i | 0 <= i < |reqs| :: Answers(env, turns[i], k + i, reqs[i]))
    && (|reqs| < |turns| ==> turns[|reqs|].Protocol?)
  }

  lemma RoundAnswers(env: Env, s: Bytes, k: nat)
    requires !RoundOf(env, s, k).Silence? && RoundOf(env, s, k).turn.Ask?
    ensures ParseRequest(s).Parsed? && Answers(env, RoundOf(env, s, k).turn, k, ParseRequest(s).value)
    ensures RoundOf(env, s, k).More? ==> RoundOf(env, s, k).rest == ParseRequest(s).rest
  {
  }

  lemma AnswerMore(env: Env, turn: Turn, req: Request, later: seq<Turn>, k: nat, reqs: seq<Request>)
    requires Answers(env, turn, k, req) && AnswerAll(env, later, k + 1, reqs)
    ensures AnswerAll(env, [turn] + later, k, [req] + reqs)
  {
    forall i | 0 <= i < |reqs| + 1 ensures Answers(env, ([turn] + later)[i], k + i, ([req] + reqs)[i]) {
      if i > 0 {
        assert Answers(env, later[i - 1], k + 1 + (i - 1), reqs[i - 1]);
      }
    }
  }

  lemma FirstRequest(s: Bytes)
    requires ParseRequest(s).Parsed?
    ensures ParseRequests(s, 1) == Parsed([ParseRequest(s).value], ParseRequest(s).rest)
  {
    StreamStep(s, ParseRequest(s).rest, ParseRequest(s).rest, ParseRequest(s).value, []);
    assert [ParseRequest(s).value] + [] == [ParseRequest(s).value];
  }

  /** `reqs` are the first requests of the stream, and `turns` answer them. */
  ghost predicate Answered(env: Env, s: Bytes, turns: seq<Turn>, k: nat, reqs: seq<Request>, rest: Bytes) {
    ParseRequests(s, |reqs|) == Parsed(reqs, rest) && AnswerAll(env, turns, k, reqs)
  }

  lemma NoneAnswered(env: Env, s: Bytes, turns: seq<Turn>, k: nat)
    requires turns == [] || (|turns| == 1 && turns[0].Protocol?)
    ensures Answered(env, s, turns, k, [], s)
  {
  }

  lemma LastAnswered(env: Env, s: Bytes, turn: Turn, k: nat)
    requires ParseRequest(s).Parsed? && Answers(env, turn, k, ParseRequest(s).value)
    ensures Answered(env, s, [turn], k, [ParseRequest(s).value], ParseRequest(s).rest)
  {
    FirstRequest(s);
  }

  lemma MoreAnswered(env: Env, s: Bytes, mid: Bytes, turn: Turn, req: Request, turns: seq<Turn>, k: nat,
                 reqs: seq<Request>, rest: Bytes)
    requires ParseRequest(s) == Parsed(req, mid) && Answers(env, turn, k, req)
    requires Answered(env, mid, turns, k + 1, reqs, rest)
    ensures Answered(env, s, [turn] + turns, k, [req] + reqs, rest)
  {
    var all := [req] + reqs;
    assert AnswerAll(env, [turn] + turns, k, all) by {
      AnswerMore(env, turn, req, turns, k, reqs);
    }
    assert ParseRequests(s, |all|) == Parsed(all, rest) by {
      assert |all| == |reqs| + 1;
      StreamStep(s, mid, rest, req, reqs);
    }
  }

  /** The i-th response that came from the broker answers the i-th request of
      the stream, and was asked with that request's fields. */
  lemma {:induction false} AnswersInOrder(env: Env, s: Bytes, k: nat) returns (reqs: seq<Request>, rest: Bytes)
    ensures Answered(env, s, Turns(env, s, k), k, reqs, rest)
    decreases |s|
  {
    var turns, round := Turns(env, s, k), RoundOf(env, s, k);
    if round.More? {
      RoundAnswers(env, s, k);
      reqs, rest := AnswersInOrder(env, round.rest, k + 1);
      MoreAnswered(env, s, round.rest, round.turn, ParseRequest(s).value, Turns(env, round.rest, k + 1), k, reqs, rest);
      reqs := [ParseRequest(s).value] + reqs;
    } else if round.Final? && round.turn.Ask? {
      RoundAnswers(env, s, k);
      LastAnswered(env, s, round.turn, k);
      reqs, rest := [ParseRequest(s).value], ParseRequest(s).rest;
    } else {
      NoneAnswered(env, s, turns, k);
      reqs, rest := [], s;
    }
  }

  /** No request that is decoded has an op other than push and pop: the branch
      for an unknown op in `handleConn` is never reached. */
  lemma UnknownOpIsUnreachable(s: Bytes)
    requires ParseRequest(s).Parsed?
    ensures ParseRequest(s).value.op == "push" || ParseRequest(s).value.op == "pop"
    ensures ParseRequest(s).value.op == "push" <==> s[0] == OP_PUSH
  {
  }

  // ---------- The broker behind the connection ----------

  /** The operation that an ask invokes. */
  function OpOf(ask: Ask): AtomicQueue.Op {
    match ask
    case Push(c, p) => AtomicQueue.Push(c, p)
    case Pop(cs, _) => AtomicQueue.Pop(cs)
  }

  /** How the result of a call is told to the connection. */
  predicate Reports(o: AtomicQueue.Outcome, r: BrokerReply) {
    match o
    case Ok => r.Accepted?
    case Got(d) => r == Message(d)
    case Timeout => r.Refused?
    case Rejected => r.Refused?
  }

  /** In some reachable state of the broker a call of `ask` has returned `r`. */
  ghost predicate MayAnswer(cfg: AtomicQueue.Config, ask: Ask, r: BrokerReply) {
    exists s: BrokerRuns.State, i: nat ::
      && BrokerRuns.Reached(cfg, s) && i < |s.calls|
      && s.calls[i].op == OpOf(ask) && s.calls[i].pc.Done? && Reports(s.calls[i].pc.result, r)
  }

  /** The broker has an answer to everything that can be asked. */
  lemma SomeAnswer(cfg: AtomicQueue.Config, ask: Ask) returns (r: BrokerReply)
    ensures MayAnswer(cfg, ask, r)
  {
    var s := BrokerScenarios.EveryCallCanReturn(cfg, OpOf(ask));
    r := if s.calls[0].pc.result.Ok? then Accepted else Refused([]);
    assert Reports(s.calls[0].pc.result, r);
  }

  /** A reply of success means that the payload was accepted on its channel. */
  lemma AcceptedMeans(cfg: AtomicQueue.Config, ask: Ask)
    returns (s: BrokerRuns.State, i: nat)
    requires MayAnswer(cfg, ask, Accepted)
    ensures ask.Push? && BrokerRuns.Reached(cfg, s)
    ensures AtomicQueue.Hop(i, ask.payload) in AtomicQueue.Pushed(s.trace, ask.channel)
  {
    s, i :|
      && BrokerRuns.Reached(cfg, s) && i < |s.calls|
      && s.calls[i].op == OpOf(ask) && s.calls[i].pc.Done? && Reports(s.calls[i].pc.result, Accepted);
    BrokerTheorems.OkMeansAccepted(cfg, s, i);
  }

  /** A message means that the broker assigned it to a pop of that channel. */
  lemma MessageMeans(cfg: AtomicQueue.Config, ask: Ask, d: Delivery)
    returns (s: BrokerRuns.State, i: nat)
    requires MayAnswer(cfg, ask, Message(d))
    ensures ask.Pop? && d.channel in ask.channels && BrokerRuns.Reached(cfg, s)
    ensures AtomicQueue.Hop(i, d.payload) in AtomicQueue.Popped(s.trace, d.channel)
  {
    s, i :|
      && BrokerRuns.Reached(cfg, s) && i < |s.calls|
      && s.calls[i].op == OpOf(ask) && s.calls[i].pc.Done? && Reports(s.calls[i].pc.result, Message(d));
    BrokerTheorems.GotMeansAssigned(cfg, s, i, d);
  }

  /** Every reply is one that the broker can give. */
  ghost predicate FromBroker(cfg: AtomicQueue.Config, env: Env) {
    forall k: nat, ask: Ask :: MayAnswer(cfg, ask, env.reply(k, ask))
  }

  /** Every delivery that `Pop` returns, in any reachable state, passes the
      size checks of `writeResponse`: only a failed socket can lose it. */
  lemma DeliveriesAreSendable(cfg: AtomicQueue.Config, s: BrokerRuns.State, i: nat, d: Delivery)
    requires BrokerRuns.Reached(cfg, s) && cfg.maxBytes <= DEFAULT_MAX_BYTES
    requires i < |s.calls| && s.calls[i].pc == BrokerRuns.Done(AtomicQueue.Got(d))
    ensures Sendable(Response(true, d.channel, d.payload, []))
  {
    BrokerTheorems.DeliveriesAreValid(cfg, s, i, d);
  }

  /** So an answer that the broker does not refuse always goes out whole on a
      socket that takes it. */
  lemma AnswersAreSendable(cfg: AtomicQueue.Config, env: Env, k: nat, ask: Ask)
    requires FromBroker(cfg, env) && cfg.maxBytes <= DEFAULT_MAX_BYTES && !env.reply(k, ask).Refused?
    ensures var answer := AnswerTo(env.reply(k, ask));
            answer.ok && (GoesOut(env, k, answer) <==> |ResponseFrame(answer)| <= env.taken(k))
  {
    var r := env.reply(k, ask);
    assert MayAnswer(cfg, ask, r);
    var s: BrokerRuns.State, i: nat :|
      && BrokerRuns.Reached(cfg, s) && i < |s.calls|
      && s.calls[i].op == OpOf(ask) && s.calls[i].pc.Done? && Reports(s.calls[i].pc.result, r);
    if r.Message? {
      DeliveriesAreSendable(cfg, s, i, r.delivery);
    }
  }

  /** A request that decodes, is not refused, and whose answer the socket takes. */
  predicate Served(env: Env, k: nat, req: Request) {
    && Encodable(req) && (req.op == "push" ==> |req.channels| == 1)
    && var answer := env.reply(k, AskOf(req).value);
       !answer.Refused? && |ResponseFrame(AnswerTo(answer))| <= env.taken(k)
  }

  /** The turn in which a served request is answered. */
  function ServedTurn(env: Env, k: nat, req: Request): Turn
    requires AskOf(req).Some?
  {
    var ask := AskOf(req).value;
    Turn.Ask(ask, AnswerTo(env.reply(k, ask)))
  }

  function ServedTurns(env: Env, k: nat, reqs: seq<Request>): (r: seq<Turn>)
    requires forall i | 0 <= i < |reqs| :: AskOf(reqs[i]).Some?
    ensures |r| == |reqs| && forall i | 0 <= i < |reqs| :: r[i] == ServedTurn(env, k + i, reqs[i])
    decreases |reqs|
  {
    if reqs == [] then [] else [ServedTurn(env, k, reqs[0])] + ServedTurns(env, k + 1, reqs[1..])
  }

  lemma CleanTurn(env: Env, s: Bytes, rest: Bytes, k: nat, req: Request)
    requires ParseRequest(s) == Parsed(req, rest) && AskOf(req).Some?
    requires GoesOut(env, k, ServedTurn(env, k, req).response) && ServedTurn(env, k, req).response.ok
    ensures Turns(env, s, k) == [ServedTurn(env, k, req)] + Turns(env, rest, k + 1)
    ensures Tail(env, s, k) == Tail(env, rest, k + 1)
  {
  }

  /** A served request at the head of the stream is one more OK. */
  lemma ServedFirst(cfg: AtomicQueue.Config, env: Env, req: Request, rest: Bytes, k: nat)
    requires FromBroker(cfg, env) && cfg.maxBytes <= DEFAULT_MAX_BYTES && Served(env, k, req)
    ensures ServedTurn(env, k, req).response.ok
    ensures Turns(env, RequestFrame(req) + rest, k) == [ServedTurn(env, k, req)] + Turns(env, rest, k + 1)
    ensures Tail(env, RequestFrame(req) + rest, k) == Tail(env, rest, k + 1)
  {
    RequestRoundTrip(req, rest);
    AnswersAreSendable(cfg, env, k, AskOf(req).value);
    CleanTurn(env, RequestFrame(req) + rest, rest, k, req);
  }

  lemma NothingLeft(env: Env, k: nat)
    ensures Turns(env, [], k) == [] && Tail(env, [], k) == []
  {
  }

  predicate AllServed(env: Env, k: nat, reqs: seq<Request>) {
    forall i | 0 <= i < |reqs| :: Served(env, k + i, reqs[i])
  }

  lemma RestServed(env: Env, k: nat, reqs: seq<Request>)
    requires AllServed(env, k, reqs) && reqs != []
    ensures Served(env, k, reqs[0]) && AllServed(env, k + 1, reqs[1..])
  {
    assert Served(env, k + 0, reqs[0]);
    forall i | 0 <= i < |reqs[1..]| ensures Served(env, k + 1 + i, reqs[1..][i]) {
      assert Served(env, k + (i + 1), reqs[i + 1]);
    }
  }

  lemma {:induction false} CleanTurns(cfg: AtomicQueue.Config, env: Env, reqs: seq<Request>, k: nat)
    requires FromBroker(cfg, env) && cfg.maxBytes <= DEFAULT_MAX_BYTES && AllServed(env, k, reqs)
    ensures Turns(env, RequestFrames(reqs), k) == ServedTurns(env, k, reqs)
    ensures Tail(env, RequestFrames(reqs), k) == []
    decreases |reqs|
  {
    if reqs == [] {
      NothingLeft(env, k);
    } else {
      RestServed(env, k, reqs);
      CleanTurns(cfg, env, reqs[1..], k + 1);
      ServedFirst(cfg, env, reqs[0], RequestFrames(reqs[1..]), k);
    }
  }

  /** A session in which nothing goes wrong: n well-formed requests, then the
      end of the stream, give exactly n OKs, each the broker's answer to its
      request, and nothing else. */
  lemma CleanSession(cfg: AtomicQueue.Config, env: Env, reqs: seq<Request>, k: nat)
    requires FromBroker(cfg, env) && cfg.maxBytes <= DEFAULT_MAX_BYTES && AllServed(env, k, reqs)
    ensures var turns := Turns(env, RequestFrames(reqs), k);
            |turns| == |reqs| && forall i | 0 <= i < |turns| ::
              turns[i] == ServedTurn(env, k + i, reqs[i]) && turns[i].response.ok
    ensures Tail(env, RequestFrames(reqs), k) == []
  {
    CleanTurns(cfg, env, reqs, k);
    forall i | 0 <= i < |reqs| ensures ServedTurn(env, k + i, reqs[i]).response.ok {
      assert Served(env, k + i, reqs[i]);
    }
  }

  // ---------- What the peer reads ----------

  lemma ResponsesStep(s: Bytes, mid: Bytes, t: Bytes, r: Response, rs: seq<Response>)
    requires ParseResponse(s) == Parsed(r, mid) && ParseResponses(mid, |rs|) == Parsed(rs, t)
    ensures ParseResponses(s, |rs| + 1) == Parsed([r] + rs, t)
  {
  }

  lemma {:induction false} ResponseStreamRoundTrip(rs: seq<Response>, t: Bytes)
    requires forall i | 0 <= i < |rs| :: Sendable(rs[i])
    ensures ParseResponses(ResponseFrames(rs) + t, |rs|) == Parsed(rs, t)
    decreases |rs|
  {
    if rs == [] {
      assert ResponseFrames(rs) + t == t;
    } else {
      var mid := ResponseFrames(rs[1..]) + t;
      Assoc(ResponseFrame(rs[0]), ResponseFrames(rs[1..]), t);
      ResponseRoundTrip(rs[0], mid);
      ResponseStreamRoundTrip(rs[1..], t);
      ResponsesStep(ResponseFrames(rs) + t, mid, t, rs[0], rs[1..]);
      assert [rs[0]] + rs[1..] == rs;
    }
  }

  lemma UnsentIsTruncated(env: Env, k: nat, r: Response)
    requires !GoesOut(env, k, r)
    ensures ParseResponse(Sent(env, k, r)).Failed? && ParseResponse(Sent(env, k, r)).error.IsTruncation()
  {
    if Sendable(r) {
      ResponseSelfDelimiting(r, env.taken(k));
    }
  }

  lemma SilenceIsTruncated(env: Env, s: Bytes, k: nat)
    requires RoundOf(env, s, k).Silence?
    ensures var part := RoundOf(env, s, k).part;
            ParseResponse(part).Failed? && ParseResponse(part).error.IsTruncation()
  {
    if RoundOf(env, s, k).part != [] {
      var r :| !GoesOut(env, k, r) && RoundOf(env, s, k).part == Sent(env, k, r);
      UnsentIsTruncated(env, k, r);
    }
  }

  /** Part of a frame reads as a truncated response. */
  lemma {:induction false} TailIsTruncated(env: Env, s: Bytes, k: nat)
    ensures ParseResponse(Tail(env, s, k)).Failed? && ParseResponse(Tail(env, s, k)).error.IsTruncation()
    decreases |s|
  {
    match RoundOf(env, s, k)
    case Silence(part) => SilenceIsTruncated(env, s, k);
    case Final(_) =>
    case More(_, rest) => TailIsTruncated(env, rest, k + 1);
  }

  /** Whatever the input, the peer decodes the output of a connection to
      exactly the responses of its turns, and then finds nothing or the
      beginning of one more response. */
  lemma OutputDecodes(env: Env, input: Bytes)
    ensures var rs, tail := Responses(Turns(env, input, 0)), Tail(env, input, 0);
            && ParseResponses(Output(env, input, 0), |rs|) == Parsed(rs, tail)
            && ParseResponse(tail).Failed? && ParseResponse(tail).error.IsTruncation()
  {
    var turns := Turns(env, input, 0);
    var rs := Responses(turns);
    OksThenAtMostOneError(env, input, 0);
    ResponseStreamRoundTrip(rs, Tail(env, input, 0));
    TailIsTruncated(env, input, 0);
  }
  // ---------- The conversation, request by request ----------

  lemma FrameOfOne(r: Response)
    ensures ResponseFrames([r]) == ResponseFrame(r)
  {
    assert [r][1..] == [] && ResponseFrame(r) + [] == ResponseFrame(r);
  }

  lemma OutputMore(turn: Turn, later: seq<Turn>, tail: Bytes)
    ensures ResponseFrames(Responses([turn] + later)) + tail
            == ResponseFrame(turn.response) + (ResponseFrames(Responses(later)) + tail)
  {
    assert Responses([turn] + later) == [turn.response] + Responses(later);
    assert ([turn.response] + Responses(later))[1..] == Responses(later);
    Assoc(ResponseFrame(turn.response), ResponseFrames(Responses(later)), tail);
  }

  lemma OutputRound(env: Env, s: Bytes, k: nat)
    ensures match RoundOf(env, s, k)
            case Silence(part) => Output(env, s, k) == part
            case Final(turn) => Output(env, s, k) == ResponseFrame(turn.response)
            case More(turn, rest) => Output(env, s, k) == ResponseFrame(turn.response) + Output(env, rest, k + 1)
  {
    match RoundOf(env, s, k)
    case Silence(part) => assert [] + part == part;
    case Final(turn) =>
      assert Responses([turn]) == [turn.response];
      FrameOfOne(turn.response);
      assert ResponseFrame(turn.response) + [] == ResponseFrame(turn.response);
    case More(turn, rest) => OutputMore(turn, Turns(env, rest, k + 1), Tail(env, rest, k + 1));
  }

  /** A response within the limits is sent up to what the socket takes, and
      one beyond them not at all. */
  lemma SentOf(env: Env, k: nat, r: Response)
    ensures var f, n := ResponseFrame(r), env.taken(k);
            if |r.channel| <= 65535 && |r.payload| <= 256 * 1024 * 1024 && |r.error| <= 64 * 1024
            then Sent(env, k, r) == (if n < |f| then f[..n] else f)
            else Sent(env, k, r) == []
    ensures GoesOut(env, k, r) <==> Sent(env, k, r) == ResponseFrame(r)
  {
  }

  /** A clean end of the input ends the connection without a word. */
  lemma EndIsSilent(env: Env, s: Bytes, k: nat)
    requires ParseRequest(s) == Failed(EndOfFile)
    ensures Output(env, s, k) == []
  {
    OutputRound(env, s, k);
  }

  /** Any other failure to decode is the last thing answered. */
  lemma BadRequestIsAnswered(env: Env, s: Bytes, k: nat, e: ReadError)
    requires ParseRequest(s) == Failed(e) && e != EndOfFile
    ensures Output(env, s, k) == Sent(env, k, Response(false, [], [], env.decodeText(e)))
  {
    OutputRound(env, s, k);
  }

  /** So is a push that does not name exactly one channel. */
  lemma BadPushIsAnswered(env: Env, s: Bytes, k: nat, req: Request, rest: Bytes)
    requires ParseRequest(s) == Parsed(req, rest) && req.op == "push" && |req.channels| != 1
    ensures Output(env, s, k) == Sent(env, k, Response(false, [], [], env.oneChannelText))
  {
    OutputRound(env, s, k);
  }

  /** `resp` tells the peer what the broker replied. */
  predicate Tells(resp: Response, r: BrokerReply) {
    match r
    case Accepted => resp == Response(true, [], [], [])
    case Message(d) => resp == Response(true, d.channel, d.payload, [])
    case Refused(text) => resp == Response(false, [], [], text)
  }

  lemma AskIsAnswered(env: Env, s: Bytes, k: nat, ask: Ask, rest: Bytes, resp: Response)
    requires ParseRequest(s).Parsed? && ParseRequest(s).rest == rest && AskOf(ParseRequest(s).value) == Some(ask)
    requires Tells(resp, env.reply(k, ask))
    ensures Output(env, s, k)
            == Sent(env, k, resp) + if resp.ok && GoesOut(env, k, resp) then Output(env, rest, k + 1) else []
  {
    OutputRound(env, s, k);
    assert resp == AnswerTo(env.reply(k, ask));
    assert Sent(env, k, resp) + [] == Sent(env, k, resp);
  }

  /** A push is passed on with its one channel and its payload. The peer is
      told the reply; the connection goes on after an OK that went out. */
  lemma PushIsAnswered(env: Env, s: Bytes, k: nat, channel: Bytes, payload: Payload, timeoutMS: Int64, rest: Bytes,
                       resp: Response)
    requires ParseRequest(s) == Parsed(Request("push", [channel], payload, timeoutMS), rest)
    requires Tells(resp, env.reply(k, Push(channel, payload)))
    ensures Output(env, s, k)
            == Sent(env, k, resp) + if resp.ok && GoesOut(env, k, resp) then Output(env, rest, k + 1) else []
  {
    AskIsAnswered(env, s, k, Push(channel, payload), rest, resp);
  }

  /** `ns` is the number of nanoseconds in `ms` milliseconds, in 64 bits. */
  predicate IsTimeout(ns: Int64, ms: Int64) {
    (ns - ms * 1_000_000) % 0x1_0000_0000_0000_0000 == 0
  }

  lemma OneTimeout(ns: Int64, ms: Int64)
    ensures IsTimeout(ns, ms) <==> ns == TimeoutNs(ms)
  {
  }

  /** A pop is passed on with its channels and its timeout, and answered alike. */
  lemma PopIsAnswered(env: Env, s: Bytes, k: nat, channels: seq<Bytes>, payload: Payload, timeoutMS: Int64, rest: Bytes,
                      ns: Int64, resp: Response)
    requires ParseRequest(s) == Parsed(Request("pop", channels, payload, timeoutMS), rest)
    requires IsTimeout(ns, timeoutMS) && Tells(resp, env.reply(k, Pop(channels, ns)))
    ensures Output(env, s, k)
            == Sent(env, k, resp) + if resp.ok && GoesOut(env, k, resp) then Output(env, rest, k + 1) else []
  {
    OneTimeout(ns, timeoutMS);
    AskIsAnswered(env, s, k, Pop(channels, ns), rest, resp);
  }

  /** `resp` tells the broker's reply to the k-th request, which was passed on
      with the request's own fields. */
  ghost predicate Told(env: Env, k: nat, req: Request, resp: Response) {
    if req.op == "push" then |req.channels| == 1 && Tells(resp, env.reply(k, Push(req.channels[0], req.payload)))
    else exists ns: Int64 :: IsTimeout(ns, req.timeoutMS) && Tells(resp, env.reply(k, Pop(req.channels, ns)))
  }

  lemma AnswerTells(env: Env, turn: Turn, k: nat, req: Request)
    requires Answers(env, turn, k, req)
    ensures Told(env, k, req, turn.response)
  {
    assert Tells(turn.response, env.reply(k, turn.ask));
    if req.op != "push" {
      OneTimeout(TimeoutNs(req.timeoutMS), req.timeoutMS);
    }
  }

  /** For every input: the i-th response that the peer reads from the bytes of
      the connection tells the broker's reply to the i-th request it sent; one
      more may follow, and then only the beginning of a frame. */
  lemma PeerReads(env: Env, input: Bytes) returns (reqs: seq<Request>, rest: Bytes, rs: seq<Response>, tail: Bytes)
    ensures ParseRequests(input, |reqs|) == Parsed(reqs, rest)
    ensures ParseResponses(Output(env, input, 0), |rs|) == Parsed(rs, tail) && ParseResponse(tail).Failed?
    ensures |reqs| <= |rs| <= |reqs| + 1 && forall i | 0 <= i < |reqs| :: Told(env, i, reqs[i], rs[i])
    ensures |reqs| < |rs| ==> !rs[|reqs|].ok
  {
    var turns := Turns(env, input, 0);
    reqs, rest := AnswersInOrder(env, input, 0);
    OutputDecodes(env, input);
    OksThenAtMostOneError(env, input, 0);
    rs, tail := Responses(turns), Tail(env, input, 0);
    forall i | 0 <= i < |reqs| ensures Told(env, i, reqs[i], rs[i]) {
      assert Answers(env, turns[i], 0 + i, reqs[i]);
      AnswerTells(env, turns[i], i, reqs[i]);
    }
  }

  lemma ServedTells(env: Env, k: nat, req: Request)
    requires Served(env, k, req)
    ensures Told(env, k, req, ServedTurn(env, k, req).response)
  {
    AnswerTells(env, ServedTurn(env, k, req), k, req);
  }

  lemma AllDecode(env: Env, input: Bytes, turns: seq<Turn>)
    requires Turns(env, input, 0) == turns && Tail(env, input, 0) == []
    ensures ParseResponses(Output(env, input, 0), |turns|) == Parsed(Responses(turns), [])
  {
    OutputDecodes(env, input);
  }

  lemma ServedTurnsTell(env: Env, reqs: seq<Request>)
    requires AllServed(env, 0, reqs)
    ensures var turns := ServedTurns(env, 0, reqs);
            forall i | 0 <= i < |reqs| :: Told(env, i, reqs[i], turns[i].response)
  {
    forall i | 0 <= i < |reqs| ensures Told(env, i, reqs[i], ServedTurns(env, 0, reqs)[i].response) {
      assert Served(env, 0 + i, reqs[i]);
      ServedTells(env, i, reqs[i]);
      assert ServedTurns(env, 0, reqs)[i] == ServedTurn(env, 0 + i, reqs[i]);
    }
  }

  /** In a session in which nothing goes wrong the peer reads one reply for
      each request: for a pop that was given a message, that message. */
  lemma ServedAreTold(cfg: AtomicQueue.Config, env: Env, reqs: seq<Request>) returns (rs: seq<Response>)
    requires FromBroker(cfg, env) && cfg.maxBytes <= DEFAULT_MAX_BYTES && AllServed(env, 0, reqs)
    ensures ParseResponses(Output(env, RequestFrames(reqs), 0), |reqs|) == Parsed(rs, [])
    ensures |rs| == |reqs| && forall i | 0 <= i < |reqs| :: Told(env, i, reqs[i], rs[i])
  {
    var turns := ServedTurns(env, 0, reqs);
    CleanTurns(cfg, env, reqs, 0);
    AllDecode(env, RequestFrames(reqs), turns);
    ServedTurnsTell(env, reqs);
    rs := Responses(turns);
  }
}
