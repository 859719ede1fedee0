/** The binary protocol as printers and parsers over byte strings. A parser
    returns the value and the unread rest, or the error the reader reports. */
module Wire {
  import opened Types

  datatype Request = Request(op: string, channels: seq<Bytes>, payload: Payload, timeoutMS: Int64)

  datatype Response = Response(ok: bool, channel: Bytes, payload: Payload, error: Bytes)

  const OP_PUSH: Byte := 1
  const OP_POP: Byte := 2
  const STATUS_OK: Byte := 1
  const STATUS_ERROR: Byte := 2
  const MAX_CHANNELS: int := 1024
  const MAX_ERROR_SIZE: int := 65536

  /** EndOfFile: no byte was left. UnexpectedEnd: the input broke off inside a
      field. The others are final: more input would not change them. */
  datatype ReadError = EndOfFile | UnexpectedEnd | TooManyChannels | FrameTooLarge | UnknownTag {
    predicate IsTruncation() {
      EndOfFile? || UnexpectedEnd?
    }
  }

  datatype Parse<+T> = Parsed(value: T, rest: Bytes) | Failed(error: ReadError) {
    predicate IsFailure() {
      Failed?
    }
    function PropagateFailure<U>(): Parse<U>
      requires Failed?
    {
      Failed(error)
    }
    function Extract(): (T, Bytes)
      requires Parsed?
    {
      (value, rest)
    }
  }

  // ---------- Numbers ----------

  function Pow256(n: nat): (r: nat)
    ensures r > 0
  {
    if n == 0 then 1 else 256 * Pow256(n - 1)
  }

  /** `v` in `n` bytes, most significant first; higher bytes are dropped. */
  function BigEndian(v: nat, n: nat): (r: Bytes)
    ensures |r| == n
  {
    if n == 0 then [] else BigEndian(v / 256, n - 1) + [v % 256]
  }

  function FromBigEndian(s: Bytes): nat {
    if s == [] then 0 else 256 * FromBigEndian(s[..|s| - 1]) + s[|s| - 1]
  }

  /** Two's complement in 64 bits. */
  function Unsigned(x: Int64): nat {
    if x < 0 then x + TWO_64 else x
  }

  function Signed(u: nat): Int64
    requires u < TWO_64
  {
    if u < TWO_63 then u else u - TWO_64
  }

  lemma Widths()
    ensures Pow256(2) == 0x1_0000 && Pow256(4) == TWO_32 && Pow256(8) == TWO_64
  {
  }

  lemma {:induction false} DecodeBigEndian(v: nat, n: nat)
    requires v < Pow256(n)
    ensures FromBigEndian(BigEndian(v, n)) == v
    decreases n
  {
    if n > 0 {
      DecodeBigEndian(v / 256, n - 1);
      var s := BigEndian(v, n);
      assert s[..|s| - 1] == BigEndian(v / 256, n - 1);
    }
  }

  lemma {:induction false} EncodeBigEndian(s: Bytes)
    ensures FromBigEndian(s) < Pow256(|s|)
    ensures BigEndian(FromBigEndian(s), |s|) == s
    decreases |s|
  {
    if s != [] {
      EncodeBigEndian(s[..|s| - 1]);
      assert FromBigEndian(s) / 256 == FromBigEndian(s[..|s| - 1]);
      assert s == s[..|s| - 1] + [s[|s| - 1]];
    }
  }

  // ---------- Fields ----------

  function String16(x: Bytes): Bytes {
    BigEndian(|x|, 2) + x
  }

  function Bytes32(x: Bytes): Bytes {
    BigEndian(|x|, 4) + x
  }

  function Strings16(xs: seq<Bytes>): Bytes {
    if xs == [] then [] else String16(xs[0]) + Strings16(xs[1..])
  }

  /** `io.ReadFull` of `n` bytes. */
  function ParseFull(s: Bytes, n: nat): Parse<Bytes> {
    if n <= |s| then Parsed(s[..n], s[n..])
    else if s == [] then Failed(EndOfFile) else Failed(UnexpectedEnd)
  }

  function ParseByte(s: Bytes): Parse<Byte> {
    if s == [] then Failed(EndOfFile) else Parsed(s[0], s[1..])
  }

  function ParseUint(s: Bytes, n: nat): Parse<nat> {
    var (bytes, rest) :- ParseFull(s, n);
    Parsed(FromBigEndian(bytes), rest)
  }

  function ParseString16(s: Bytes): Parse<Bytes> {
    var (n, rest) :- ParseUint(s, 2);
    ParseFull(rest, n)
  }

  function ParseBytes32(s: Bytes, max: int): Parse<Bytes> {
    var (n, rest) :- ParseUint(s, 4);
    if n > max then Failed(FrameTooLarge)
    else if n <= |rest| then Parsed(rest[..n], rest[n..])
    else Failed(UnexpectedEnd)
  }

  function ParseStrings16(s: Bytes, n: nat): Parse<seq<Bytes>>
    decreases n
  {
    if n == 0 then Parsed([], s)
    else
      var (x, rest) :- ParseString16(s);
      var (xs, rest') :- ParseStrings16(rest, n - 1);
      Parsed([x] + xs, rest')
  }

  // ---------- Requests ----------

  function OpTag(op: string): Byte {
    if op == "push" then OP_PUSH else OP_POP
  }

  predicate KnownOp(op: string) {
    op == "push" || op == "pop"
  }

  predicate ShortNames(channels: seq<Bytes>) {
    forall c | c in channels :: |c| <= 0xffff
  }

  /** The requests that `writeRequest` accepts. */
  predicate Encodable(req: Request) {
    && KnownOp(req.op) && |req.channels| <= MAX_CHANNELS
    && |req.payload| <= DEFAULT_MAX_BYTES && ShortNames(req.channels)
  }

  function RequestHead(req: Request): Bytes {
    [OpTag(req.op)] + BigEndian(Unsigned(req.timeoutMS), 8) + BigEndian(|req.channels|, 2)
  }

  function RequestFrame(req: Request): Bytes {
    RequestHead(req) + Strings16(req.channels) + Bytes32(req.payload)
  }

  function ParseTimeout(s: Bytes): Parse<Int64> {
    if 8 <= |s| then
      EncodeBigEndian(s[..8]);
      Widths();
      Parsed(Signed(FromBigEndian(s[..8])), s[8..])
    else if s == [] then Failed(EndOfFile) else Failed(UnexpectedEnd)
  }

  function ParseRequest(s: Bytes): Parse<Request> {
    var (tag, s1) :- ParseByte(s);
    var (timeout, s2) :- ParseTimeout(s1);
    var (count, s3) :- ParseUint(s2, 2);
    if count > MAX_CHANNELS then Failed(TooManyChannels)
    else
      var (channels, s4) :- ParseStrings16(s3, count);
      var (payload, s5) :- ParseBytes32(s4, DEFAULT_MAX_BYTES);
      if tag == OP_PUSH then Parsed(Request("push", channels, payload, timeout), s5)
      else if tag == OP_POP then Parsed(Request("pop", channels, payload, timeout), s5)
      else Failed(UnknownTag)
  }

  function ParseRequests(s: Bytes, n: nat): Parse<seq<Request>>
    decreases n
  {
    if n == 0 then Parsed([], s)
    else
      var (r, rest) :- ParseRequest(s);
      var (rs, rest') :- ParseRequests(rest, n - 1);
      Parsed([r] + rs, rest')
  }

  function RequestFrames(reqs: seq<Request>): Bytes {
    if reqs == [] then [] else RequestFrame(reqs[0]) + RequestFrames(reqs[1..])
  }

  // ---------- Responses ----------

  function StatusTag(ok: bool): Byte {
    if ok then STATUS_OK else STATUS_ERROR
  }

  /** The responses that `writeResponse` accepts. */
  predicate Sendable(resp: Response) {
    && |resp.payload| <= DEFAULT_MAX_BYTES
    && |resp.channel| <= 0xffff
    && |resp.error| <= MAX_ERROR_SIZE
  }

  function ResponseFrame(resp: Response): Bytes {
    [StatusTag(resp.ok)] + String16(resp.channel) + Bytes32(resp.payload) + Bytes32(resp.error)
  }

  function ParseResponse(s: Bytes): Parse<Response> {
    var (tag, s1) :- ParseByte(s);
    var (channel, s2) :- ParseString16(s1);
    var (payload, s3) :- ParseBytes32(s2, DEFAULT_MAX_BYTES);
    var (error, s4) :- ParseBytes32(s3, MAX_ERROR_SIZE);
    if tag == STATUS_OK then Parsed(Response(true, channel, payload, error), s4)
    else if tag == STATUS_ERROR then Parsed(Response(false, channel, payload, error), s4)
    else Failed(UnknownTag)
  }

  // ---------- Round trips of the fields ----------

  lemma UintRoundTrip(v: nat, n: nat, t: Bytes)
    requires v < Pow256(n)
    ensures ParseUint(BigEndian(v, n) + t, n) == Parsed(v, t)
  {
  }

  lemma UintCanonical(s: Bytes, n: nat)
    requires ParseUint(s, n).Parsed?
    ensures var (v, rest) := ParseUint(s, n).Extract();
            v < Pow256(n) && s == BigEndian(v, n) + rest
  {
    EncodeBigEndian(s[..n]);
    assert s == s[..n] + s[n..];
  }

  lemma TimeoutRoundTrip(x: Int64, t: Bytes)
    ensures ParseTimeout(BigEndian(Unsigned(x), 8) + t) == Parsed(x, t)
  {
    Widths();
    DecodeBigEndian(Unsigned(x), 8);
    var s := BigEndian(Unsigned(x), 8) + t;
    assert s[..8] == BigEndian(Unsigned(x), 8) && s[8..] == t;
  }

  lemma TimeoutCanonical(s: Bytes)
    requires ParseTimeout(s).Parsed?
    ensures var (x, rest) := ParseTimeout(s).Extract();
            s == BigEndian(Unsigned(x), 8) + rest
  {
    Widths();
    EncodeBigEndian(s[..8]);
    assert s == s[..8] + s[8..];
  }

  lemma String16RoundTrip(x: Bytes, t: Bytes)
    requires |x| <= 0xffff
    ensures ParseString16(String16(x) + t) == Parsed(x, t)
  {
    Widths();
    UintRoundTrip(|x|, 2, x + t);
    assert String16(x) + t == BigEndian(|x|, 2) + (x + t);
    assert (x + t)[..|x|] == x && (x + t)[|x|..] == t;
  }

  lemma String16Canonical(s: Bytes)
    requires ParseString16(s).Parsed?
    ensures var (x, rest) := ParseString16(s).Extract();
            |x| <= 0xffff && s == String16(x) + rest
  {
    Widths();
    UintCanonical(s, 2);
    var rest := ParseUint(s, 2).rest;
    assert rest == ParseString16(s).value + ParseString16(s).rest;
  }

  lemma Bytes32RoundTrip(x: Bytes, t: Bytes, max: int)
    requires |x| <= max && |x| < TWO_32
    ensures ParseBytes32(Bytes32(x) + t, max) == Parsed(x, t)
  {
    Widths();
    UintRoundTrip(|x|, 4, x + t);
    assert Bytes32(x) + t == BigEndian(|x|, 4) + (x + t);
    assert (x + t)[..|x|] == x && (x + t)[|x|..] == t;
  }

  lemma Bytes32Canonical(s: Bytes, max: int)
    requires ParseBytes32(s, max).Parsed?
    ensures var (x, rest) := ParseBytes32(s, max).Extract();
            |x| <= max && |x| < TWO_32 && s == Bytes32(x) + rest
  {
    Widths();
    UintCanonical(s, 4);
    var rest := ParseUint(s, 4).rest;
    assert rest == ParseBytes32(s, max).value + ParseBytes32(s, max).rest;
  }

  lemma Assoc(a: Bytes, b: Bytes, c: Bytes)
    ensures (a + b) + c == a + (b + c)
  {
  }

  lemma Strings16Step(s: Bytes, mid: Bytes, t: Bytes, x: Bytes, xs: seq<Bytes>)
    requires ParseString16(s) == Parsed(x, mid) && ParseStrings16(mid, |xs|) == Parsed(xs, t)
    ensures ParseStrings16(s, |xs| + 1) == Parsed([x] + xs, t)
  {
  }

  lemma {:induction false} Strings16RoundTrip(xs: seq<Bytes>, t: Bytes)
    requires ShortNames(xs)
    ensures ParseStrings16(Strings16(xs) + t, |xs|) == Parsed(xs, t)
    decreases |xs|
  {
    if xs == [] {
      assert Strings16(xs) + t == t;
    } else {
      var x, rest := xs[0], xs[1..];
      assert xs == [x] + rest;
      Strings16RoundTrip(rest, t);
      String16RoundTrip(x, Strings16(rest) + t);
      Assoc(String16(x), Strings16(rest), t);
      Strings16Step(Strings16(xs) + t, Strings16(rest) + t, t, x, rest);
    }
  }

  lemma {:induction false} Strings16Canonical(s: Bytes, n: nat)
    requires ParseStrings16(s, n).Parsed?
    ensures var (xs, rest) := ParseStrings16(s, n).Extract();
            |xs| == n && ShortNames(xs) && s == Strings16(xs) + rest
    decreases n
  {
    if n == 0 {
      assert s == [] + s;
    } else {
      String16Canonical(s);
      var (x, mid) := ParseString16(s).Extract();
      Strings16Canonical(mid, n - 1);
      var (xs, rest) := ParseStrings16(mid, n - 1).Extract();
      assert ([x] + xs)[1..] == xs;
      Assoc(String16(x), Strings16(xs), rest);
    }
  }

  // ---------- Round trips of the frames ----------

  lemma {:induction false} Strings16Snoc(xs: seq<Bytes>, x: Bytes)
    ensures Strings16(xs + [x]) == Strings16(xs) + String16(x)
    decreases |xs|
  {
    if xs == [] {
      assert [] + [x] == [x];
      assert Strings16([x]) == String16(x) + Strings16([]);
    } else {
      Strings16Snoc(xs[1..], x);
      assert (xs + [x])[1..] == xs[1..] + [x];
      Assoc(String16(xs[0]), Strings16(xs[1..]), String16(x));
    }
  }

  lemma Glue(a: Bytes, b: Bytes, c: Bytes, d: Bytes, e: Bytes, t: Bytes)
    ensures a + (b + (c + (d + (e + t)))) == (((a + b + c) + d) + e) + t
  {
  }

  lemma GlueFour(a: Bytes, b: Bytes, c: Bytes, d: Bytes, t: Bytes)
    ensures a + (b + (c + (d + t))) == (a + b + c + d) + t
  {
  }

  /** `readRequest` field by field, when every field is read. */
  lemma RequestFields(s: Bytes, s1: Bytes, s2: Bytes, s3: Bytes, s4: Bytes, t: Bytes, req: Request)
    requires KnownOp(req.op) && |req.channels| <= MAX_CHANNELS
    requires s == [OpTag(req.op)] + s1
    requires ParseTimeout(s1) == Parsed(req.timeoutMS, s2)
    requires ParseUint(s2, 2) == Parsed(|req.channels|, s3)
    requires ParseStrings16(s3, |req.channels|) == Parsed(req.channels, s4)
    requires ParseBytes32(s4, DEFAULT_MAX_BYTES) == Parsed(req.payload, t)
    ensures ParseRequest(s) == Parsed(req, t)
  {
  }

  lemma ResponseFields(s: Bytes, s1: Bytes, s2: Bytes, s3: Bytes, t: Bytes, resp: Response)
    requires s == [StatusTag(resp.ok)] + s1
    requires ParseString16(s1) == Parsed(resp.channel, s2)
    requires ParseBytes32(s2, DEFAULT_MAX_BYTES) == Parsed(resp.payload, s3)
    requires ParseBytes32(s3, MAX_ERROR_SIZE) == Parsed(resp.error, t)
    ensures ParseResponse(s) == Parsed(resp, t)
  {
  }

  lemma CountRoundTrip(n: nat, t: Bytes)
    requires n <= 0xffff
    ensures ParseUint(BigEndian(n, 2) + t, 2) == Parsed(n, t)
  {
    Widths();
    UintRoundTrip(n, 2, t);
  }

  /** Whatever `writeRequest` accepts, `readRequest` recovers exactly. */
  lemma RequestRoundTrip(req: Request, t: Bytes)
    requires Encodable(req)
    ensures ParseRequest(RequestFrame(req) + t) == Parsed(req, t)
  {
    var s4 := Bytes32(req.payload) + t;
    var s3 := Strings16(req.channels) + s4;
    var s2 := BigEndian(|req.channels|, 2) + s3;
    var s1 := BigEndian(Unsigned(req.timeoutMS), 8) + s2;
    Glue([OpTag(req.op)], BigEndian(Unsigned(req.timeoutMS), 8), BigEndian(|req.channels|, 2),
         Strings16(req.channels), Bytes32(req.payload), t);
    TimeoutRoundTrip(req.timeoutMS, s2);
    CountRoundTrip(|req.channels|, s3);
    Strings16RoundTrip(req.channels, s4);
    Bytes32RoundTrip(req.payload, t, DEFAULT_MAX_BYTES);
    RequestFields(RequestFrame(req) + t, s1, s2, s3, s4, t, req);
  }

  lemma RequestOfFields(s: Bytes, s1: Bytes, s2: Bytes, s3: Bytes, s4: Bytes, s5: Bytes, req: Request)
    requires s != [] && s1 == s[1..] && s[0] == OpTag(req.op)
    requires s1 == BigEndian(Unsigned(req.timeoutMS), 8) + s2 && s2 == BigEndian(|req.channels|, 2) + s3
    requires s3 == Strings16(req.channels) + s4 && s4 == Bytes32(req.payload) + s5
    ensures s == RequestFrame(req) + s5
  {
    assert s == [OpTag(req.op)] + s1;
    Glue([OpTag(req.op)], BigEndian(Unsigned(req.timeoutMS), 8), BigEndian(|req.channels|, 2),
         Strings16(req.channels), Bytes32(req.payload), s5);
  }

  /** Whatever `readRequest` accepts is the encoding of what it returns: the
      encoding is unique, and only encodable requests are ever returned. */
  lemma RequestCanonical(s: Bytes)
    requires ParseRequest(s).Parsed?
    ensures var (req, rest) := ParseRequest(s).Extract();
            Encodable(req) && s == RequestFrame(req) + rest
  {
    var (tag, s1) := ParseByte(s).Extract();
    var (timeout, s2) := ParseTimeout(s1).Extract();
    var (count, s3) := ParseUint(s2, 2).Extract();
    var (channels, s4) := ParseStrings16(s3, count).Extract();
    var (payload, s5) := ParseBytes32(s4, DEFAULT_MAX_BYTES).Extract();
    var req := ParseRequest(s).value;
    assert req == Request(if tag == OP_PUSH then "push" else "pop", channels, payload, timeout);
    TimeoutCanonical(s1);
    UintCanonical(s2, 2);
    Strings16Canonical(s3, count);
    Bytes32Canonical(s4, DEFAULT_MAX_BYTES);
    RequestOfFields(s, s1, s2, s3, s4, s5, req);
  }

  lemma ResponseRoundTrip(resp: Response, t: Bytes)
    requires Sendable(resp)
    ensures ParseResponse(ResponseFrame(resp) + t) == Parsed(resp, t)
  {
    var s3 := Bytes32(resp.error) + t;
    var s2 := Bytes32(resp.payload) + s3;
    var s1 := String16(resp.channel) + s2;
    GlueFour([StatusTag(resp.ok)], String16(resp.channel), Bytes32(resp.payload), Bytes32(resp.error), t);
    String16RoundTrip(resp.channel, s2);
    Bytes32RoundTrip(resp.payload, s3, DEFAULT_MAX_BYTES);
    Bytes32RoundTrip(resp.error, t, MAX_ERROR_SIZE);
    ResponseFields(ResponseFrame(resp) + t, s1, s2, s3, t, resp);
  }

  lemma FrameOfFields(s: Bytes, s1: Bytes, s2: Bytes, s3: Bytes, s4: Bytes, resp: Response)
    requires s != [] && s1 == s[1..] && s[0] == StatusTag(resp.ok)
    requires s1 == String16(resp.channel) + s2 && s2 == Bytes32(resp.payload) + s3 && s3 == Bytes32(resp.error) + s4
    ensures s == ResponseFrame(resp) + s4
  {
  }

  lemma ResponseCanonical(s: Bytes)
    requires ParseResponse(s).Parsed?
    ensures var (resp, rest) := ParseResponse(s).Extract();
            Sendable(resp) && s == ResponseFrame(resp) + rest
  {
    var s1 := s[1..];
    var (channel, s2) := ParseString16(s1).Extract();
    var (payload, s3) := ParseBytes32(s2, DEFAULT_MAX_BYTES).Extract();
    var (error, s4) := ParseBytes32(s3, MAX_ERROR_SIZE).Extract();
    var resp := ParseResponse(s).value;
    assert resp == Response(s[0] == STATUS_OK, channel, payload, error) && StatusTag(resp.ok) == s[0];
    String16Canonical(s1);
    Bytes32Canonical(s2, DEFAULT_MAX_BYTES);
    Bytes32Canonical(s3, MAX_ERROR_SIZE);
    FrameOfFields(s, s1, s2, s3, s4, resp);
  }

  lemma {:induction false} RequestFramesSnoc(reqs: seq<Request>, r: Request)
    ensures RequestFrames(reqs + [r]) == RequestFrames(reqs) + RequestFrame(r)
    decreases |reqs|
  {
    var f := RequestFrame(r);
    if reqs == [] {
      assert [] + [r] == [r] && [r][1..] == [];
      assert f + [] == f == [] + f;
    } else {
      RequestFramesSnoc(reqs[1..], r);
      assert (reqs + [r])[1..] == reqs[1..] + [r];
      Assoc(RequestFrame(reqs[0]), RequestFrames(reqs[1..]), f);
    }
  }

  lemma StreamStep(s: Bytes, mid: Bytes, t: Bytes, r: Request, rs: seq<Request>)
    requires ParseRequest(s) == Parsed(r, mid) && ParseRequests(mid, |rs|) == Parsed(rs, t)
    ensures ParseRequests(s, |rs| + 1) == Parsed([r] + rs, t)
  {
  }

  /** Request streams: concatenated encodings, followed by any bytes, decode
      to exactly that list, with exactly those bytes left over. */
  lemma {:induction false} StreamRoundTrip(reqs: seq<Request>, t: Bytes)
    requires forall r | r in reqs :: Encodable(r)
    ensures ParseRequests(RequestFrames(reqs) + t, |reqs|) == Parsed(reqs, t)
    decreases |reqs|
  {
    if reqs == [] {
      assert RequestFrames(reqs) + t == t;
    } else {
      var mid := RequestFrames(reqs[1..]) + t;
      Assoc(RequestFrame(reqs[0]), RequestFrames(reqs[1..]), t);
      RequestRoundTrip(reqs[0], mid);
      StreamRoundTrip(reqs[1..], t);
      StreamStep(RequestFrames(reqs) + t, mid, t, reqs[0], reqs[1..]);
      assert [reqs[0]] + reqs[1..] == reqs;
    }
  }

  // ---------- Truncated input ----------

  /** A parser whose final errors do not depend on later input. */
  predicate Settled<T(==)>(r: Parse<T>, r': Parse<T>) {
    r.Failed? && !r.error.IsTruncation() ==> r' == r
  }

  lemma UintMore(s: Bytes, n: nat, t: Bytes)
    ensures ParseUint(s, n).Parsed? ==> ParseUint(s + t, n) == Parsed(ParseUint(s, n).value, ParseUint(s, n).rest + t)
    ensures Settled(ParseUint(s, n), ParseUint(s + t, n))
  {
    if n <= |s| {
      assert (s + t)[..n] == s[..n] && (s + t)[n..] == s[n..] + t;
    }
  }

  lemma String16More(s: Bytes, t: Bytes)
    ensures ParseString16(s).Parsed? ==> ParseString16(s + t) == Parsed(ParseString16(s).value, ParseString16(s).rest + t)
    ensures Settled(ParseString16(s), ParseString16(s + t))
  {
    UintMore(s, 2, t);
    if ParseString16(s).Parsed? {
      String16Canonical(s);
      var (x, rest) := ParseString16(s).Extract();
      assert s + t == String16(x) + (rest + t);
      String16RoundTrip(x, rest + t);
    }
  }

  lemma Bytes32More(s: Bytes, max: int, t: Bytes)
    ensures ParseBytes32(s, max).Parsed?
            ==> ParseBytes32(s + t, max) == Parsed(ParseBytes32(s, max).value, ParseBytes32(s, max).rest + t)
    ensures Settled(ParseBytes32(s, max), ParseBytes32(s + t, max))
  {
    UintMore(s, 4, t);
    if ParseBytes32(s, max).Parsed? {
      Bytes32Canonical(s, max);
      var (x, rest) := ParseBytes32(s, max).Extract();
      assert s + t == Bytes32(x) + (rest + t);
      Bytes32RoundTrip(x, rest + t, max);
    }
  }

  lemma {:induction false} Strings16More(s: Bytes, n: nat, t: Bytes)
    ensures ParseStrings16(s, n).Parsed?
            ==> ParseStrings16(s + t, n) == Parsed(ParseStrings16(s, n).value, ParseStrings16(s, n).rest + t)
    ensures Settled(ParseStrings16(s, n), ParseStrings16(s + t, n))
    decreases n
  {
    if n > 0 {
      String16More(s, t);
      if ParseString16(s).Parsed? {
        Strings16More(ParseString16(s).rest, n - 1, t);
      }
    }
  }

  /** An error that is not a truncation stays, whatever follows. */
  lemma RequestErrorsAreFinal(s: Bytes, t: Bytes)
    ensures Settled(ParseRequest(s), ParseRequest(s + t))
  {
    if s != [] {
      var s1 := s[1..];
      assert (s + t)[1..] == s1 + t;
      if ParseTimeout(s1).Parsed? {
        assert (s1 + t)[..8] == s1[..8] && (s1 + t)[8..] == s1[8..] + t;
        var s2 := s1[8..];
        UintMore(s2, 2, t);
        if ParseUint(s2, 2).Parsed? && ParseUint(s2, 2).value <= MAX_CHANNELS {
          var (count, s3) := ParseUint(s2, 2).Extract();
          Strings16More(s3, count, t);
          if ParseStrings16(s3, count).Parsed? {
            Bytes32More(ParseStrings16(s3, count).rest, DEFAULT_MAX_BYTES, t);
          }
        }
      }
    }
  }

  lemma ResponseErrorsAreFinal(s: Bytes, t: Bytes)
    ensures Settled(ParseResponse(s), ParseResponse(s + t))
  {
    if s != [] {
      var s1 := s[1..];
      assert (s + t)[1..] == s1 + t;
      String16More(s1, t);
      if ParseString16(s1).Parsed? {
        var s2 := ParseString16(s1).rest;
        Bytes32More(s2, DEFAULT_MAX_BYTES, t);
        if ParseBytes32(s2, DEFAULT_MAX_BYTES).Parsed? {
          Bytes32More(ParseBytes32(s2, DEFAULT_MAX_BYTES).rest, MAX_ERROR_SIZE, t);
        }
      }
    }
  }

  /** A strict prefix of a frame is no frame followed by other bytes. */
  lemma RequestNotInside(req: Request, req': Request, k: nat, rest: Bytes)
    requires Encodable(req) && Encodable(req') && k < |RequestFrame(req)|
    ensures RequestFrame(req)[..k] != RequestFrame(req') + rest
  {
    var f := RequestFrame(req);
    if f[..k] == RequestFrame(req') + rest {
      Assoc(RequestFrame(req'), rest, f[k..]);
      assert f == f[..k] + f[k..] && f == f + [];
      RequestRoundTrip(req, []);
      RequestRoundTrip(req', rest + f[k..]);
    }
  }

  lemma ResponseNotInside(resp: Response, resp': Response, k: nat, rest: Bytes)
    requires Sendable(resp) && Sendable(resp') && k < |ResponseFrame(resp)|
    ensures ResponseFrame(resp)[..k] != ResponseFrame(resp') + rest
  {
    var f := ResponseFrame(resp);
    if f[..k] == ResponseFrame(resp') + rest {
      Assoc(ResponseFrame(resp'), rest, f[k..]);
      assert f == f[..k] + f[k..] && f == f + [];
      ResponseRoundTrip(resp, []);
      ResponseRoundTrip(resp', rest + f[k..]);
    }
  }

  /** Self-delimiting: every strict prefix of a valid frame fails to decode,
      and fails as truncated input. */
  lemma RequestSelfDelimiting(req: Request, k: nat)
    requires Encodable(req) && k < |RequestFrame(req)|
    ensures ParseRequest(RequestFrame(req)[..k]).Failed?
    ensures ParseRequest(RequestFrame(req)[..k]).error.IsTruncation()
  {
    var f := RequestFrame(req);
    var p, t := f[..k], f[k..];
    if ParseRequest(p).Parsed? {
      RequestCanonical(p);
      RequestNotInside(req, ParseRequest(p).value, k, ParseRequest(p).rest);
    } else {
      RequestErrorsAreFinal(p, t);
      assert p + t == f + [];
      RequestRoundTrip(req, []);
    }
  }

  lemma ResponseSelfDelimiting(resp: Response, k: nat)
    requires Sendable(resp) && k < |ResponseFrame(resp)|
    ensures ParseResponse(ResponseFrame(resp)[..k]).Failed?
    ensures ParseResponse(ResponseFrame(resp)[..k]).error.IsTruncation()
  {
    var f := ResponseFrame(resp);
    var p, t := f[..k], f[k..];
    if ParseResponse(p).Parsed? {
      ResponseCanonical(p);
      ResponseNotInside(resp, ParseResponse(p).value, k, ParseResponse(p).rest);
    } else {
      ResponseErrorsAreFinal(p, t);
      assert p + t == f + [];
      ResponseRoundTrip(resp, []);
    }
  }
}
