/** The protocol in literal bytes: what a peer written from the protocol's
    description alone would send and expect, field by field. */
module WireFormat {
  import opened Types
  import opened Wire

  // ---------- Numbers ----------

  lemma {:induction false} MultipleGrows(d: nat, a: nat, b: nat)
    requires a > b
    ensures d * a >= d * b + d
  {
    assert d * a == d * (a - 1) + d;
    if a > b + 1 {
      MultipleGrows(d, a - 1, b);
    }
  }

  lemma QuotientIs(v: nat, d: nat, q: nat, r: nat)
    requires d > 0 && v == d * q + r && r < d
    ensures v / d == q
  {
    var q', r' := v / d, v % d;
    assert d * q' + r' == d * q + r;
    if q > q' {
      MultipleGrows(d, q, q');
    } else if q < q' {
      MultipleGrows(d, q', q);
    }
  }

  lemma DivideTwice(v: nat, p: nat)
    requires p > 0
    ensures v / 256 / p == v / (256 * p)
  {
    var q, r := v / 256 / p, v / 256 % p;
    assert v / 256 == p * q + r;
    assert v == 256 * (p * q) + (256 * r + v % 256);
    assert 256 * (p * q) == (256 * p) * q;
    QuotientIs(v, 256 * p, q, 256 * r + v % 256);
  }

  /** The j-th of `n` bytes is the digit of weight 256^(n-1-j). */
  lemma {:induction false} BigEndianDigit(v: nat, n: nat, j: nat)
    requires j < n
    ensures BigEndian(v, n)[j] == v / Pow256(n - 1 - j) % 256
    decreases n
  {
    if j == n - 1 {
      assert v / 1 == v;
    } else {
      BigEndianDigit(v / 256, n - 1, j);
      DivideTwice(v, Pow256(n - 2 - j));
    }
  }

  // ---------- Tags and limits ----------

  /** Tag 1 is a push and tag 2 is a pop; no other tag is accepted. */
  lemma RequestTags(s: Bytes)
    requires ParseRequest(s).Parsed?
    ensures s != [] && (s[0] == 1 || s[0] == 2)
    ensures ParseRequest(s).value.op == "push" <==> s[0] == 1
    ensures ParseRequest(s).value.op == "pop" <==> s[0] == 2
  {
  }

  /** Status 1 is OK and status 2 is an error; no other status is accepted. */
  lemma ResponseTags(s: Bytes)
    requires ParseResponse(s).Parsed?
    ensures s != [] && (s[0] == 1 || s[0] == 2)
    ensures ParseResponse(s).value.ok <==> s[0] == 1
  {
  }

  /** Any other tag on a request that is otherwise in order is refused. */
  lemma OtherTagsAreRefused(s: Bytes, tag: Byte)
    requires ParseRequest(s).Parsed? && tag != 1 && tag != 2
    ensures ParseRequest([tag] + s[1..]) == Failed(UnknownTag)
  {
    assert ([tag] + s[1..])[1..] == s[1..];
  }

  lemma OtherStatusesAreRefused(s: Bytes, status: Byte)
    requires ParseResponse(s).Parsed? && status != 1 && status != 2
    ensures ParseResponse([status] + s[1..]) == Failed(UnknownTag)
  {
    assert ([status] + s[1..])[1..] == s[1..];
  }

  /** The limits of the protocol: 1024 channels, names of 65535 bytes, payloads
      of 256 MiB and error texts of 64 KiB. */
  lemma Limits(req: Request, resp: Response)
    ensures Encodable(req) <==>
              && (req.op == "push" || req.op == "pop")
              && |req.channels| <= 1024
              && (forall i | 0 <= i < |req.channels| :: |req.channels[i]| <= 65535)
              && |req.payload| <= 256 * 1024 * 1024
    ensures Sendable(resp) <==>
              |resp.channel| <= 65535 && |resp.payload| <= 256 * 1024 * 1024 && |resp.error| <= 64 * 1024
  {
    if forall i | 0 <= i < |req.channels| :: |req.channels[i]| <= 65535 {
      assert ShortNames(req.channels);
    }
  }

  // ---------- Whole frames ----------

  /** A number from its two bytes. */
  lemma TwoBytes(s: Bytes)
    requires |s| >= 2
    ensures ParseUint(s, 2).Parsed? && ParseUint(s, 2).rest == s[2..]
    ensures ParseUint(s, 2).value == 256 * (s[0] as int) + s[1]
  {
    assert s[..2][..1] == s[..1] && s[..1][..0] == [];
    assert FromBigEndian(s[..1]) == s[0];
  }

  lemma FourBytes(s: Bytes)
    requires |s| >= 4
    ensures ParseUint(s, 4).Parsed? && ParseUint(s, 4).rest == s[4..]
    ensures ParseUint(s, 4).value == 0x100_0000 * (s[0] as int) + 0x1_0000 * (s[1] as int) + 0x100 * (s[2] as int) + s[3]
  {
    assert s[..4][..3] == s[..3] && s[..3][..2] == s[..2] && s[..2][..1] == s[..1] && s[..1][..0] == [];
    assert FromBigEndian(s[..1]) == s[0];
    assert FromBigEndian(s[..2]) == 256 * FromBigEndian(s[..1]) + s[1];
    assert FromBigEndian(s[..3]) == 256 * FromBigEndian(s[..2]) + s[2];
  }

  lemma {:induction false} AllZeros(n: nat)
    ensures BigEndian(0, n) == seq(n, _ => 0)
  {
    if n > 0 {
      AllZeros(n - 1);
    }
  }

  /** A push of no bytes to "a", without a timeout. */
  lemma PushFrame()
    ensures RequestFrame(Request("push", [[97]], [], 0))
            == [1] + [0, 0, 0, 0, 0, 0, 0, 0] + [0, 1] + [0, 1, 97] + [0, 0, 0, 0]
  {
    assert BigEndian(0, 8) == [0, 0, 0, 0, 0, 0, 0, 0] by {
      AllZeros(8);
    }
    assert BigEndian(1, 2) == [0, 1] && Bytes32([]) == [0, 0, 0, 0];
    assert Strings16([[97]]) == [0, 1, 97] + Strings16([]);
  }

  lemma OneByteMore(v: nat, n: nat, d: Byte)
    ensures BigEndian(256 * v + d, n + 1) == BigEndian(v, n) + [d]
  {
    assert (256 * v + d) / 256 == v && (256 * v + d) % 256 == d;
  }

  lemma ThreeBytes(a: Byte, b: Byte, c: Byte, n: nat)
    ensures BigEndian(256 * (256 * (a as int) + b) + c, n + 3) == BigEndian(0, n) + [a, b, c]
  {
    OneByteMore(0, n, a);
    OneByteMore(a, n + 1, b);
    OneByteMore(256 * (a as int) + b, n + 2, c);
  }

  lemma TimeoutBytes()
    ensures BigEndian(66051, 8) == [0, 0, 0, 0, 0, 1, 2, 3]
  {
    AllZeros(5);
    ThreeBytes(1, 2, 3, 5);
  }

  lemma {:induction false} AllOnes(n: nat)
    ensures BigEndian(Pow256(n) - 1, n) == seq(n, _ => 255)
  {
    if n > 0 {
      AllOnes(n - 1);
      assert (Pow256(n) - 1) / 256 == Pow256(n - 1) - 1 && (Pow256(n) - 1) % 256 == 255;
    }
  }

  lemma AllOnesThen(n: nat, v: nat, d: Byte)
    requires v == 256 * (Pow256(n) - 1) + d
    ensures BigEndian(v, n + 1) == seq(n, _ => 255) + [d]
  {
    AllOnes(n);
    assert v / 256 == Pow256(n) - 1 && v % 256 == d;
  }

  /** A timeout of -2 in two's complement. */
  lemma NegativeTimeoutBytes()
    ensures BigEndian(Unsigned(-2), 8) == seq(7, _ => 255) + [254]
  {
    assert Unsigned(-2) == 256 * (Pow256(7) - 1) + 254 by {
      Widths();
    }
    AllOnesThen(7, Unsigned(-2), 254);
  }

  lemma NameBytes()
    ensures Strings16([[97], [98, 99]]) == [0, 1, 97, 0, 2, 98, 99]
  {
    var names: seq<Bytes> := [[97], [98, 99]];
    assert names[1..] == [[98, 99]] && names[1..][1..] == [];
    assert String16(names[0]) == [0, 1, 97] && String16(names[1]) == [0, 2, 98, 99];
  }

  /** A pop from "a" and "bc" with a timeout of 66051 = 0x010203. */
  lemma PopFrame()
    ensures RequestFrame(Request("pop", [[97], [98, 99]], [], 66051))
            == [2] + [0, 0, 0, 0, 0, 1, 2, 3] + [0, 2] + [0, 1, 97, 0, 2, 98, 99] + [0, 0, 0, 0]
  {
    TimeoutBytes();
    NameBytes();
    assert BigEndian(2, 2) == [0, 2];
    assert Bytes32([]) == [0, 0, 0, 0];
  }

  lemma ReadWhole(req: Request, bytes: Bytes)
    requires Encodable(req) && RequestFrame(req) == bytes
    ensures ParseRequest(bytes) == Parsed(req, [])
  {
    assert RequestFrame(req) + [] == bytes;
    RequestRoundTrip(req, []);
  }

  /** And the daemon reads both as what they are. */
  lemma PushFrameIsRead()
    ensures ParseRequest([1] + [0, 0, 0, 0, 0, 0, 0, 0] + [0, 1] + [0, 1, 97] + [0, 0, 0, 0])
            == Parsed(Request("push", [[97]], [], 0), [])
  {
    PushFrame();
    ReadWhole(Request("push", [[97]], [], 0), RequestFrame(Request("push", [[97]], [], 0)));
  }

  lemma PopFrameIsRead()
    ensures ParseRequest([2] + [0, 0, 0, 0, 0, 1, 2, 3] + [0, 2] + [0, 1, 97, 0, 2, 98, 99] + [0, 0, 0, 0])
            == Parsed(Request("pop", [[97], [98, 99]], [], 66051), [])
  {
    PopFrame();
    ReadWhole(Request("pop", [[97], [98, 99]], [], 66051), RequestFrame(Request("pop", [[97], [98, 99]], [], 66051)));
  }

  /** A message "xyz" from "a", and an error "no". */
  lemma ResponseBytes()
    ensures ResponseFrame(Response(true, [97], [120, 121, 122], []))
            == [1] + [0, 1, 97] + [0, 0, 0, 3, 120, 121, 122] + [0, 0, 0, 0]
    ensures ResponseFrame(Response(false, [], [], [110, 111]))
            == [2] + [0, 0] + [0, 0, 0, 0] + [0, 0, 0, 2, 110, 111]
  {
    assert BigEndian(1, 2) == [0, 1] && BigEndian(0, 2) == [0, 0];
    assert BigEndian(3, 4) == [0, 0, 0, 3] && BigEndian(0, 4) == [0, 0, 0, 0] && BigEndian(2, 4) == [0, 0, 0, 2];
  }

  // ---------- Errors ----------

  /** Which error a request ends with when its fixed fields break off, or when
      it announces too many channels. */
  lemma HeadErrors(s: Bytes)
    ensures |s| < 11 ==>
              ParseRequest(s) == Failed(if |s| == 0 || |s| == 1 || |s| == 9 then EndOfFile else UnexpectedEnd)
    ensures |s| >= 11 && 256 * (s[9] as int) + s[10] > 1024 ==> ParseRequest(s) == Failed(TooManyChannels)
  {
    if |s| >= 11 {
      var s2 := s[1..][8..];
      assert s2[0] == s[9] && s2[1] == s[10];
      TwoBytes(s2);
    }
  }

  /** The same for a name: the end of the input between its length and its
      bytes counts as the end of the file. */
  lemma NameErrors(s: Bytes)
    ensures s == [] ==> ParseString16(s) == Failed(EndOfFile)
    ensures |s| == 1 ==> ParseString16(s) == Failed(UnexpectedEnd)
    ensures |s| >= 2 ==>
              var n := 256 * (s[0] as int) + s[1];
              if |s| - 2 >= n then ParseString16(s) == Parsed(s[2..][..n], s[2..][n..])
              else ParseString16(s) == Failed(if |s| == 2 then EndOfFile else UnexpectedEnd)
  {
    if |s| >= 2 {
      TwoBytes(s);
    }
  }

  /** And for a payload: the limit comes first, and the end of the input after
      the length is always unexpected. */
  lemma PayloadErrors(s: Bytes, max: int)
    ensures s == [] ==> ParseBytes32(s, max) == Failed(EndOfFile)
    ensures 1 <= |s| < 4 ==> ParseBytes32(s, max) == Failed(UnexpectedEnd)
    ensures |s| >= 4 ==>
              var n := 0x100_0000 * (s[0] as int) + 0x1_0000 * (s[1] as int) + 0x100 * (s[2] as int) + s[3];
              if n > max then ParseBytes32(s, max) == Failed(FrameTooLarge)
              else if |s| - 4 >= n then ParseBytes32(s, max) == Parsed(s[4..][..n], s[4..][n..])
              else ParseBytes32(s, max) == Failed(UnexpectedEnd)
  {
    if |s| >= 4 {
      FourBytes(s);
    }
  }
}
