/** The PHP client: frames built with `pack`, exact reads and full writes over
    a stream that moves any non-empty chunk at a time. */
module PhpClient {
  import opened Types
  import opened Wire
  import PythonClient

  // ---------- Frames ----------

  /** `pack('n', v)` and `pack('N', v)` keep the low 16 and 32 bits. */
  function Pack16(v: nat): Bytes {
    BigEndian(v, 2)
  }

  function Pack32(v: nat): Bytes {
    BigEndian(v, 4)
  }

  /** `packInt64BE`: the arithmetic shift rounds down, the masks wrap. */
  function PackInt64(value: Int64): Bytes {
    var hi := value / TWO_32 % TWO_32;
    var lo := value % TWO_32;
    Pack32(hi) + Pack32(lo)
  }

  lemma SplitDivision(h: nat, lo: nat)
    ensures (256 * h + lo) / 256 == h + lo / 256
    ensures (256 * h + lo) % 256 == lo % 256
  {
  }

  /** A big-endian number falls into its high and low parts. */
  lemma {:induction false} BigEndianSplit(hi: nat, lo: nat, n: nat, m: nat)
    requires lo < Pow256(m)
    ensures BigEndian(hi * Pow256(m) + lo, n + m) == BigEndian(hi, n) + BigEndian(lo, m)
    decreases m
  {
    if m == 0 {
      assert BigEndian(lo, 0) == [];
      assert BigEndian(hi, n) + [] == BigEndian(hi, n);
    } else {
      var p := Pow256(m - 1);
      var v := hi * Pow256(m) + lo;
      SplitDivision(hi * p, lo);
      assert hi * Pow256(m) == 256 * (hi * p);
      assert v / 256 == hi * p + lo / 256 && v % 256 == lo % 256;
      BigEndianSplit(hi, lo / 256, n, m - 1);
      Assoc(BigEndian(hi, n), BigEndian(lo / 256, m - 1), [lo % 256]);
    }
  }

  /** The hi/lo split is big-endian two's complement for every 64-bit value. */
  lemma PackInt64IsTwosComplement(value: Int64)
    ensures PackInt64(value) == BigEndian(Unsigned(value), 8)
  {
    var hi := value / TWO_32 % TWO_32;
    var lo := value % TWO_32;
    Widths();
    assert Unsigned(value) == hi * TWO_32 + lo;
    BigEndianSplit(hi, lo, 4, 4);
  }

  function Names(channels: seq<Bytes>): Bytes {
    if channels == [] then []
    else Names(channels[..|channels| - 1])
         + Pack16(|channels[|channels| - 1]|) + channels[|channels| - 1]
  }

  function Frame(op: Byte, channels: seq<Bytes>, payload: Payload, timeoutMS: Int64): Bytes {
    [op] + PackInt64(timeoutMS) + Pack16(|channels|) + Names(channels) + Pack32(|payload|) + payload
  }

  lemma {:induction false} NamesAreStrings16(channels: seq<Bytes>)
    ensures Names(channels) == Strings16(channels)
    decreases |channels|
  {
    if channels != [] {
      var init, last := channels[..|channels| - 1], channels[|channels| - 1];
      NamesAreStrings16(init);
      Strings16Snoc(init, last);
      assert init + [last] == channels;
      Assoc(Names(init), Pack16(|last|), last);
    }
  }

  /** The frame is the daemon's encoding of the request, field by field. */
  lemma FrameIsRequestFrame(req: Request)
    requires KnownOp(req.op)
    ensures Frame(OpTag(req.op), req.channels, req.payload, req.timeoutMS) == RequestFrame(req)
  {
    PackInt64IsTwosComplement(req.timeoutMS);
    NamesAreStrings16(req.channels);
    Assoc(RequestHead(req) + Strings16(req.channels), Pack32(|req.payload|), req.payload);
  }

  /** The daemon decodes a PHP frame to the request that was meant, followed
      by whatever comes next, if and only if the request is within the limits
      of the protocol; the client itself checks none of them. */
  lemma FrameDecodesIffEncodable(req: Request, t: Bytes)
    requires KnownOp(req.op)
    ensures ParseRequest(Frame(OpTag(req.op), req.channels, req.payload, req.timeoutMS) + t) == Parsed(req, t)
            <==> Encodable(req)
  {
    FrameIsRequestFrame(req);
    var s := RequestFrame(req) + t;
    if Encodable(req) {
      RequestRoundTrip(req, t);
    }
    if ParseRequest(s).Parsed? {
      RequestCanonical(s);
    }
  }

  /** `pack('n', 65536)` is two zero bytes. */
  lemma LongLengthIsZero()
    ensures Pack16(0x1_0000) == [0, 0] == Pack16(0)
  {
    assert BigEndian(0x1_0000, 2) == BigEndian(0x100, 1) + [0];
    assert BigEndian(0x100, 1) == BigEndian(1, 0) + [0];
    assert BigEndian(0, 2) == BigEndian(0, 1) + [0];
    assert BigEndian(0, 1) == BigEndian(0, 0) + [0];
  }

  lemma SwapZeros(name: Bytes, zeros: Bytes)
    requires forall k | 0 <= k < |name| :: name[k] == 0
    requires forall k | 0 <= k < |zeros| :: zeros[k] == 0
    ensures name + zeros == zeros + name
  {
  }

  /** Names and payload of a request for one name whose length packs to zero. */
  lemma OneNameFrame(head: Bytes, name: Bytes)
    requires |name| == 0 || |name| == 0x1_0000
    ensures head + Strings16([name]) + Bytes32([]) == head + ([0, 0] + name) + [0, 0, 0, 0]
  {
    LongLengthIsZero();
    assert Strings16([name]) == String16(name) + Strings16([]) == [0, 0] + name;
    assert Bytes32([]) == [0, 0, 0, 0];
  }

  lemma SwapGlue(head: Bytes, size: Bytes, name: Bytes, zeros: Bytes)
    requires name + zeros == zeros + name
    ensures head + (size + name) + zeros == head + (size + []) + zeros + name
  {
    assert head + (size + name) + zeros == head + size + (name + zeros);
    assert head + (size + []) + zeros + name == head + size + (zeros + name);
  }

  /** One failing request: a pop from a name of 65536 zero bytes is read by the
      daemon as a pop from the empty name, and the bytes of the name are left
      to be read as the next request. */
  lemma LongNameIsMisread(name: Bytes, timeoutMS: Int64)
    requires name == seq(0x1_0000, _ => 0)
    ensures ParseRequest(Frame(OP_POP, [name], [], timeoutMS)) == Parsed(Request("pop", [[]], [], timeoutMS), name)
  {
    var meant, read := Request("pop", [name], [], timeoutMS), Request("pop", [[]], [], timeoutMS);
    FrameIsRequestFrame(meant);
    var head := RequestHead(read);
    assert RequestFrame(meant) == head + ([0, 0] + name) + [0, 0, 0, 0] by { OneNameFrame(head, name); }
    assert RequestFrame(read) == head + ([0, 0] + []) + [0, 0, 0, 0] by { OneNameFrame(head, []); }
    SwapZeros(name, [0, 0, 0, 0]);
    SwapGlue(head, [0, 0], name, [0, 0, 0, 0]);
    RequestRoundTrip(read, name);
  }

  // ---------- The response reader ----------

  /** A length of `width` bytes and that many bytes, both read exactly. */
  function ReadField(s: Bytes, width: nat): Option<(Bytes, Bytes)> {
    if |s| < width then None
    else
      var n := FromBigEndian(s[..width]);
      var body := s[width..];
      if |body| < n then None else Some((body[..n], body[n..]))
  }

  function Reader(s: Bytes): Option<(Response, Bytes)> {
    if s == [] then None
    else
      match ReadField(s[1..], 2)
      case None => None
      case Some((channel, s1)) =>
        match ReadField(s1, 4)
        case None => None
        case Some((payload, s2)) =>
          match ReadField(s2, 4)
          case None => None
          case Some((text, s3)) => Some((Response(s[0] == STATUS_OK, channel, payload, text), s3))
  }

  // ---------- The stream ----------

  class Stream {
    const input: Bytes
    var pos: nat
    var written: Bytes

    ghost predicate Valid()
      reads this
    {
      pos <= |input|
    }

    ghost function Rest(): Bytes
      requires Valid()
      reads this
    {
      input[pos..]
    }

    constructor (input: Bytes)
      ensures Valid() && Rest() == input && written == [] && this.input == input
    {
      this.input := input;
      pos, written := 0, [];
    }

    /** `fread`: any non-empty chunk of at most `n` bytes, empty only at the
        end of the input. */
    method Fread(n: nat) returns (chunk: Bytes)
      requires Valid() && n > 0
      modifies this`pos
      ensures Valid() && |chunk| <= n
      ensures old(Rest()) == chunk + Rest()
      ensures chunk == [] <==> old(Rest()) == []
    {
      var available := |input| - pos;
      if available == 0 {
        return [];
      }
      var k :| 1 <= k <= n && k <= available;
      chunk := input[pos..pos + k];
      assert input[pos..] == chunk + input[pos + k..];
      pos := pos + k;
    }

    /** `fwrite`: any part of the data may be taken; none means failure. */
    method Fwrite(data: Bytes) returns (n: nat)
      modifies this`written
      ensures n <= |data| && written == old(written) + data[..n]
    {
      n :| 0 <= n <= |data|;
      written := written + data[..n];
    }

    /** `readExact`: for every fragmentation, exactly the next `length` bytes,
        or the exception when the input ends before that. */
    method ReadExact(length: nat) returns (r: Option<Bytes>)
      requires Valid()
      modifies this`pos
      ensures Valid()
      ensures if length <= |old(Rest())|
              then r == Some(old(Rest())[..length]) && Rest() == old(Rest())[length..]
              else r == None
    {
      if length == 0 {
        return Some([]);
      }
      var buffer: Bytes := [];
      while |buffer| < length
        invariant Valid() && |buffer| <= length
        invariant old(Rest()) == buffer + Rest()
        decreases length - |buffer|
      {
        var chunk := Fread(length - |buffer|);
        if chunk == [] {
          assert Rest() == [];
          return None;
        }
        Assoc(buffer, chunk, Rest());
        buffer := buffer + chunk;
      }
      assert buffer == old(Rest())[..length];
      return Some(buffer);
    }

    /** `writeAll`: the whole of `data`, or a failure after a strict prefix. */
    method WriteAll(data: Bytes) returns (ok: bool)
      modifies this`written
      ensures ok ==> written == old(written) + data
      ensures !ok ==> exists k :: 0 <= k < |data| && written == old(written) + data[..k]
    {
      var done := 0;
      while done < |data|
        invariant 0 <= done <= |data|
        invariant written == old(written) + data[..done]
        decreases |data| - done
      {
        var n := Fwrite(data[done..]);
        assert data[done..][..n] == data[done..done + n];
        assert data[..done] + data[done..done + n] == data[..done + n];
        if n == 0 {
          return false;
        }
        done := done + n;
      }
      assert data[..done] == data;
      return true;
    }

    /** `writeRequest`: build the frame in a loop over the channels, send it. */
    method WriteRequest(op: Byte, channels: seq<Bytes>, payload: Payload, timeoutMS: Int64) returns (ok: bool)
      modifies this`written
      ensures var frame := Frame(op, channels, payload, timeoutMS);
              if ok then written == old(written) + frame
              else exists k :: 0 <= k < |frame| && written == old(written) + frame[..k]
    {
      var frame: Bytes := [op];
      frame := frame + PackInt64(timeoutMS);
      frame := frame + Pack16(|channels|);
      ghost var head := frame;
      for k := 0 to |channels|
        invariant written == old(written)
        invariant frame == head + Names(channels[..k])
      {
        frame := frame + Pack16(|channels[k]|);
        frame := frame + channels[k];
        assert channels[..k + 1][..k] == channels[..k];
        Assoc(head, Names(channels[..k]), Pack16(|channels[k]|));
        Assoc(head, Names(channels[..k]) + Pack16(|channels[k]|), channels[k]);
      }
      assert channels[..|channels|] == channels;
      frame := frame + Pack32(|payload|);
      frame := frame + payload;
      assert frame == Frame(op, channels, payload, timeoutMS);
      ok := WriteAll(frame);
    }

    method ReadString(width: nat) returns (r: Option<Bytes>)
      requires Valid()
      modifies this`pos
      ensures Valid()
      ensures match ReadField(old(Rest()), width)
              case Some((bytes, rest)) => r == Some(bytes) && Rest() == rest
              case None => r == None
    {
      var header := ReadExact(width);
      match header
      case None => return None;
      case Some(h) => r := ReadExact(FromBigEndian(h));
    }

    method ReadResponse() returns (r: Option<Response>)
      requires Valid()
      modifies this`pos
      ensures Valid()
      ensures match Reader(old(Rest()))
              case Some((response, rest)) => r == Some(response) && Rest() == rest
              case None => r == None
    {
      var status := ReadExact(1);
      if status.None? {
        return None;
      }
      var channel := ReadString(2);
      if channel.None? {
        return None;
      }
      var payload := ReadString(4);
      if payload.None? {
        return None;
      }
      var text := ReadString(4);
      if text.None? {
        return None;
      }
      return Some(Response(status.value[0] == STATUS_OK, channel.value, payload.value, text.value));
    }
  }

  // ---------- Agreement with the Python reader ----------

  lemma FieldsAgree(s: Bytes, width: nat)
    ensures match ReadField(s, width)
            case Some((bytes, rest)) => PythonClient.ReadField(s, width) == Some(PythonClient.Field(bytes, true, rest))
            case None => PythonClient.ReadField(s, width).Some? ==> !PythonClient.ReadField(s, width).value.whole
  {
  }

  /** The two clients read every stream alike, although this one stops at the
      first short field and the Python one checks the lengths at the end. */
  lemma ReadsLikePython(s: Bytes)
    ensures match Reader(s)
            case Some((response, rest)) => PythonClient.ReadResponse(s) == Some(PythonClient.Reply(response, rest))
            case None => PythonClient.ReadResponse(s) == None
  {
    if s != [] {
      var s1 := s[1..];
      FieldsAgree(s1, 2);
      PythonClient.CutShort(s1, 2);
      if ReadField(s1, 2).Some? {
        var s2 := ReadField(s1, 2).value.1;
        FieldsAgree(s2, 4);
        PythonClient.CutShort(s2, 4);
        if ReadField(s2, 4).Some? {
          FieldsAgree(ReadField(s2, 4).value.1, 4);
        }
      }
    }
  }

  /** Any response the daemon writes is read back whole. */
  lemma ReadsDaemonResponses(resp: Response, t: Bytes)
    requires Sendable(resp)
    ensures Reader(ResponseFrame(resp) + t) == Some((resp, t))
  {
    PythonClient.ReadsDaemonResponses(resp, t);
    ReadsLikePython(ResponseFrame(resp) + t);
  }
}
