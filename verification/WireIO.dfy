/** protocol.go as it runs: writers append to a buffer field by field, readers
    advance a cursor over the input. I/O failures are not modelled. */
module WireIO {
  import opened Types
  import opened Wire

  datatype WriteError = UnknownOp | TooManyNames | PayloadTooLarge | NameTooLong | ErrorTooLong

  class Writer {
    var out: Bytes

    constructor ()
      ensures out == []
    {
      out := [];
    }

    method Write(bytes: Bytes)
      modifies this
      ensures out == old(out) + bytes
    {
      out := out + bytes;
    }

    /** `binary.Write` of an unsigned number in `n` bytes. */
    method WriteUint(v: nat, n: nat)
      modifies this
      ensures out == old(out) + BigEndian(v, n)
    {
      out := out + BigEndian(v, n);
    }
  }

  /** Index of the first name that does not fit its 16-bit length. */
  function FirstLong(names: seq<Bytes>): (k: nat)
    ensures k <= |names| && ShortNames(names[..k])
    ensures k < |names| ==> |names[k]| > 0xffff
    ensures k == |names| <==> ShortNames(names)
  {
    if names == [] then 0
    else if |names[0]| > 0xffff then 0
    else
      var k := FirstLong(names[1..]);
      assert names == [names[0]] + names[1..];
      assert names[..k + 1] == [names[0]] + names[1..][..k];
      k + 1
  }

  method WriteNames(w: Writer, names: seq<Bytes>) returns (failure: Option<WriteError>)
    modifies w
    ensures failure.None? <==> ShortNames(names)
    ensures failure.None? || failure == Some(NameTooLong)
    ensures w.out == old(w.out) + Strings16(names[..FirstLong(names)])
    ensures failure.None? ==> w.out == old(w.out) + Strings16(names)
  {
    for k := 0 to |names|
      invariant ShortNames(names[..k])
      invariant w.out == old(w.out) + Strings16(names[..k])
    {
      if |names[k]| > 0xffff {
        assert FirstLong(names) == k;
        return Some(NameTooLong);
      }
      ghost var before := w.out;
      w.WriteUint(|names[k]|, 2);
      w.Write(names[k]);
      Assoc(before, BigEndian(|names[k]|, 2), names[k]);
      Assoc(old(w.out), Strings16(names[..k]), String16(names[k]));
      Strings16Snoc(names[..k], names[k]);
      assert names[..k + 1] == names[..k] + [names[k]];
    }
    assert names[..|names|] == names;
    return None;
  }

  lemma RequestGlue(o: Bytes, a: Bytes, b: Bytes, c: Bytes, d: Bytes)
    ensures (((o + a) + b) + c) + d == o + ((a + b) + (c + d))
  {
  }

  /** The one case in which `writeRequest` fails with bytes already written:
      every check made beforehand passes, and then some name is too long. */
  predicate LeavesPart(req: Request) {
    && KnownOp(req.op) && |req.channels| <= MAX_CHANNELS && |req.payload| <= DEFAULT_MAX_BYTES
    && !ShortNames(req.channels)
  }

  /** The fields before the k-th name. */
  function Part(req: Request, k: nat): Bytes
    requires k <= |req.channels|
  {
    RequestHead(req) + Strings16(req.channels[..k])
  }

  /** What `writeRequest` appends: the frame, the fields before the first name
      that is too long, or nothing. */
  function Written(req: Request): Bytes {
    if Encodable(req) then RequestFrame(req)
    else if LeavesPart(req) then Part(req, FirstLong(req.channels))
    else []
  }

  lemma {:induction false} Strings16Prefix(names: seq<Bytes>, k: nat)
    requires k <= |names|
    ensures Strings16(names[..k]) <= Strings16(names)
    decreases |names|
  {
    if k > 0 {
      Strings16Prefix(names[1..], k - 1);
      assert names[..k][1..] == names[1..][..k - 1];
    }
  }

  lemma PartOfFrame(req: Request, k: nat)
    requires k <= |req.channels|
    ensures [] < Part(req, k) < RequestFrame(req)
  {
    var head, some, all := RequestHead(req), Strings16(req.channels[..k]), Strings16(req.channels);
    Strings16Prefix(req.channels, k);
    assert all == some + all[|some|..];
    assert RequestFrame(req) == Part(req, k) + (all[|some|..] + Bytes32(req.payload));
  }

  lemma PartIsTruncated(req: Request, k: nat)
    requires Encodable(req) && k <= |req.channels|
    ensures ParseRequest(Part(req, k)).Failed? && ParseRequest(Part(req, k)).error.IsTruncation()
  {
    PartOfFrame(req, k);
    assert RequestFrame(req)[..|Part(req, k)|] == Part(req, k);
    RequestSelfDelimiting(req, |Part(req, k)|);
  }

  /** The names that come too late to be written, replaced by empty ones. */
  lemma ShortenedRequest(req: Request) returns (req': Request)
    requires LeavesPart(req)
    ensures Encodable(req') && |req'.channels| == |req.channels|
    ensures Part(req', FirstLong(req.channels)) == Part(req, FirstLong(req.channels))
  {
    var k := FirstLong(req.channels);
    req' := req.(channels := req.channels[..k] + seq(|req.channels| - k, _ => []));
    assert req'.channels[..k] == req.channels[..k];
  }

  /** What is left behind is not empty and stops short of the payload, and it
      reads as a truncated request. */
  lemma LeftPartIsTruncated(req: Request)
    requires LeavesPart(req)
    ensures [] < Written(req) < RequestFrame(req)
    ensures ParseRequest(Written(req)).Failed? && ParseRequest(Written(req)).error.IsTruncation()
  {
    PartOfFrame(req, FirstLong(req.channels));
    var req' := ShortenedRequest(req);
    PartIsTruncated(req', FirstLong(req.channels));
  }

  /** `writeRequest` is all or nothing if and only if it is not that case. */
  lemma AllOrNothingIff(req: Request)
    ensures Written(req) == [] || (Encodable(req) && Written(req) == RequestFrame(req)) <==> !LeavesPart(req)
  {
    if LeavesPart(req) {
      LeftPartIsTruncated(req);
    }
  }

  /** One failing request: a push to a name of 65536 bytes leaves the eleven
      bytes of its head in the buffer. */
  lemma LongNameLeavesHead(req: Request)
    requires req == Request("push", [seq(0x1_0000, _ => 97)], [], 0)
    ensures LeavesPart(req) && Written(req) == RequestHead(req) && |Written(req)| == 11
  {
    assert req.channels[0] in req.channels;
    assert FirstLong(req.channels) == 0;
    assert RequestHead(req) + [] == RequestHead(req);
  }

  /** `writeRequest`. It succeeds exactly on encodable requests and then has
      appended one frame. An unknown op, too many channels or an oversized
      payload leave the buffer alone; a name that is too long leaves the head
      and the names before it in the buffer. */
  method WriteRequest(w: Writer, req: Request) returns (failure: Option<WriteError>)
    modifies w
    ensures w.out == old(w.out) + Written(req)
    ensures failure.None? <==> Encodable(req)
    ensures failure == Some(UnknownOp) <==> !KnownOp(req.op)
    ensures failure == Some(TooManyNames) <==> KnownOp(req.op) && |req.channels| > MAX_CHANNELS
    ensures failure == Some(PayloadTooLarge) <==>
              KnownOp(req.op) && |req.channels| <= MAX_CHANNELS && |req.payload| > DEFAULT_MAX_BYTES
    ensures failure == Some(NameTooLong) <==> LeavesPart(req)
  {
    if req.op != "push" && req.op != "pop" {
      return Some(UnknownOp);
    }
    if |req.channels| > MAX_CHANNELS {
      return Some(TooManyNames);
    }
    if |req.payload| > DEFAULT_MAX_BYTES {
      return Some(PayloadTooLarge);
    }
    w.Write([OpTag(req.op)]);
    w.WriteUint(Unsigned(req.timeoutMS), 8);
    w.WriteUint(|req.channels|, 2);
    ghost var start := old(w.out) + RequestHead(req);
    assert w.out == start;
    failure := WriteNames(w, req.channels);
    if failure.Some? {
      Assoc(old(w.out), RequestHead(req), Strings16(req.channels[..FirstLong(req.channels)]));
      return;
    }
    w.WriteUint(|req.payload|, 4);
    w.Write(req.payload);
    RequestGlue(old(w.out), RequestHead(req), Strings16(req.channels), BigEndian(|req.payload|, 4), req.payload);
  }

  lemma ResponseGlue(o: Bytes, a: Bytes, b: Bytes, c: Bytes, d: Bytes, e: Bytes, f: Bytes, g: Bytes)
    ensures ((((((o + a) + b) + c) + d) + e) + f) + g == o + (((a + (b + c)) + (d + e)) + (f + g))
  {
  }

  /** `writeResponse`. It rejects before appending anything, or appends one
      whole frame. */
  method WriteResponse(w: Writer, resp: Response) returns (failure: Option<WriteError>)
    modifies w
    ensures failure.None? <==> Sendable(resp)
    ensures w.out == if failure.None? then old(w.out) + ResponseFrame(resp) else old(w.out)
  {
    if |resp.payload| > DEFAULT_MAX_BYTES {
      return Some(PayloadTooLarge);
    }
    if |resp.channel| > 0xffff {
      return Some(NameTooLong);
    }
    if |resp.error| > MAX_ERROR_SIZE {
      return Some(ErrorTooLong);
    }
    w.Write([StatusTag(resp.ok)]);
    w.WriteUint(|resp.channel|, 2);
    w.Write(resp.channel);
    w.WriteUint(|resp.payload|, 4);
    w.Write(resp.payload);
    w.WriteUint(|resp.error|, 4);
    w.Write(resp.error);
    ResponseGlue(old(w.out), [StatusTag(resp.ok)], BigEndian(|resp.channel|, 2), resp.channel,
                 BigEndian(|resp.payload|, 4), resp.payload, BigEndian(|resp.error|, 4), resp.error);
    return None;
  }

  /** The result of a read agrees with the parser, cursor included. After an
      error nothing is said of the cursor: no caller reads on. */
  ghost predicate Agrees<T(!new)>(p: Parse<T>, r: Result<T, ReadError>, rest: Bytes) {
    match p
    case Parsed(v, s) => r == Success(v) && rest == s
    case Failed(e) => r == Failure(e)
  }

  /** A parse result whose value is preceded by names read before. */
  function Prepend(names: seq<Bytes>, p: Parse<seq<Bytes>>): Parse<seq<Bytes>> {
    match p
    case Parsed(xs, rest) => Parsed(names + xs, rest)
    case Failed(e) => Failed(e)
  }

  lemma PrependNothing(p: Parse<seq<Bytes>>)
    ensures Prepend([], p) == p
  {
    if p.Parsed? {
      assert [] + p.value == p.value;
    }
  }

  lemma Concat3(a: seq<Bytes>, b: seq<Bytes>, c: seq<Bytes>)
    ensures a + (b + c) == (a + b) + c
  {
  }

  /** One more name moves from the parser's share to those already read. */
  lemma PrependStep(names: seq<Bytes>, s: Bytes, n: nat)
    requires n > 0
    ensures match ParseString16(s)
            case Parsed(x, rest) =>
              Prepend(names, ParseStrings16(s, n)) == Prepend(names + [x], ParseStrings16(rest, n - 1))
            case Failed(e) => Prepend(names, ParseStrings16(s, n)) == Failed(e)
  {
    if ParseString16(s).Parsed? {
      var (x, rest) := ParseString16(s).Extract();
      var more := ParseStrings16(rest, n - 1);
      if more.Parsed? {
        Concat3(names, [x], more.value);
      }
    }
  }

  class Reader {
    const data: Bytes
    var pos: nat

    ghost predicate Valid()
      reads this
    {
      pos <= |data|
    }

    ghost function Rest(): Bytes
      requires Valid()
      reads this
    {
      data[pos..]
    }

    constructor (data: Bytes)
      ensures Valid() && Rest() == data && this.data == data
    {
      this.data := data;
      pos := 0;
    }

    method ReadByte() returns (r: Result<Byte, ReadError>)
      requires Valid()
      modifies this
      ensures Valid() && pos >= old(pos) && (r.Success? ==> pos > old(pos))
      ensures Agrees(ParseByte(old(Rest())), r, Rest())
    {
      if pos == |data| {
        return Failure(EndOfFile);
      }
      r := Success(data[pos]);
      pos := pos + 1;
    }

    /** `io.ReadFull`: a short read takes what there is and fails. */
    method ReadFull(n: nat) returns (r: Result<Bytes, ReadError>)
      requires Valid()
      modifies this
      ensures Valid() && pos >= old(pos)
      ensures Agrees(ParseFull(old(Rest()), n), r, Rest())
    {
      var available := |data| - pos;
      if n <= available {
        assert data[pos..][..n] == data[pos..pos + n] && data[pos..][n..] == data[pos + n..];
        r := Success(data[pos..pos + n]);
        pos := pos + n;
      } else {
        r := Failure(if available == 0 then EndOfFile else UnexpectedEnd);
        pos := |data|;
      }
    }

    method ReadUint(n: nat) returns (r: Result<nat, ReadError>)
      requires Valid()
      modifies this
      ensures Valid() && pos >= old(pos)
      ensures Agrees(ParseUint(old(Rest()), n), r, Rest())
    {
      var bytes := ReadFull(n);
      match bytes
      case Failure(e) => return Failure(e);
      case Success(b) => return Success(FromBigEndian(b));
    }

    method ReadTimeout() returns (r: Result<Int64, ReadError>)
      requires Valid()
      modifies this
      ensures Valid() && pos >= old(pos)
      ensures Agrees(ParseTimeout(old(Rest())), r, Rest())
    {
      var bytes := ReadFull(8);
      match bytes
      case Failure(e) => return Failure(e);
      case Success(b) =>
        EncodeBigEndian(b);
        Widths();
        return Success(Signed(FromBigEndian(b)));
    }

    method ReadString16() returns (r: Result<Bytes, ReadError>)
      requires Valid()
      modifies this
      ensures Valid() && pos >= old(pos)
      ensures Agrees(ParseString16(old(Rest())), r, Rest())
    {
      var n := ReadUint(2);
      match n
      case Failure(e) => return Failure(e);
      case Success(k) => r := ReadFull(k);
    }

    method ReadBytes32(max: int) returns (r: Result<Bytes, ReadError>)
      requires Valid()
      modifies this
      ensures Valid() && pos >= old(pos)
      ensures Agrees(ParseBytes32(old(Rest()), max), r, Rest())
    {
      var n := ReadUint(4);
      match n
      case Failure(e) => return Failure(e);
      case Success(k) =>
        if k > max {
          return Failure(FrameTooLarge);
        }
        if k == 0 {
          return Success([]);
        }
        r := ReadFull(k);
        if r.Failure? {
          return Failure(UnexpectedEnd);
        }
    }

    /** The loop over the channel names: either it fails as the parser does,
        or the names collected so far are a prefix of the parser's result. */
    method ReadNames(count: nat) returns (r: Result<seq<Bytes>, ReadError>)
      requires Valid()
      modifies this
      ensures Valid() && pos >= old(pos)
      ensures Agrees(ParseStrings16(old(Rest()), count), r, Rest())
    {
      var names: seq<Bytes> := [];
      ghost var all := ParseStrings16(Rest(), count);
      PrependNothing(all);
      for i := 0 to count
        invariant Valid() && pos >= old(pos)
        invariant all == Prepend(names, ParseStrings16(Rest(), count - i))
      {
        PrependStep(names, Rest(), count - i);
        var name := ReadString16();
        if name.Failure? {
          return Failure(name.error);
        }
        names := names + [name.value];
      }
      assert names + [] == names;
      return Success(names);
    }

    method ReadRequest() returns (r: Result<Request, ReadError>)
      requires Valid()
      modifies this
      ensures Valid() && pos >= old(pos) && (r.Success? ==> pos > old(pos))
      ensures Agrees(ParseRequest(old(Rest())), r, Rest())
    {
      var tag := ReadByte();
      if tag.Failure? {
        return Failure(tag.error);
      }
      var timeout := ReadTimeout();
      if timeout.Failure? {
        return Failure(timeout.error);
      }
      var count := ReadUint(2);
      if count.Failure? {
        return Failure(count.error);
      }
      if count.value > MAX_CHANNELS {
        return Failure(TooManyChannels);
      }
      var channels := ReadNames(count.value);
      if channels.Failure? {
        return Failure(channels.error);
      }
      var payload := ReadBytes32(DEFAULT_MAX_BYTES);
      if payload.Failure? {
        return Failure(payload.error);
      }
      if tag.value == OP_PUSH {
        return Success(Request("push", channels.value, payload.value, timeout.value));
      } else if tag.value == OP_POP {
        return Success(Request("pop", channels.value, payload.value, timeout.value));
      } else {
        return Failure(UnknownTag);
      }
    }

    method ReadResponse() returns (r: Result<Response, ReadError>)
      requires Valid()
      modifies this
      ensures Valid() && pos >= old(pos)
      ensures Agrees(ParseResponse(old(Rest())), r, Rest())
    {
      var tag := ReadByte();
      if tag.Failure? {
        return Failure(tag.error);
      }
      var channel := ReadString16();
      if channel.Failure? {
        return Failure(channel.error);
      }
      var payload := ReadBytes32(DEFAULT_MAX_BYTES);
      if payload.Failure? {
        return Failure(payload.error);
      }
      var text := ReadBytes32(MAX_ERROR_SIZE);
      if text.Failure? {
        return Failure(text.error);
      }
      if tag.value == STATUS_OK {
        return Success(Response(true, channel.value, payload.value, text.value));
      } else if tag.value == STATUS_ERROR {
        return Success(Response(false, channel.value, payload.value, text.value));
      } else {
        return Failure(UnknownTag);
      }
    }
  }
}
