/** The Python client: its frame encoder with two LRU caches, and its response
    reader. Python strings are sequences of code points. */
module PythonClient {
  import opened Types
  import opened Wire

  type CodePoint = x: int | 0 <= x < 0x11_0000
  type PyStr = seq<CodePoint>

  datatype PyError = UnicodeEncodeError | StructError
  datatype Packed = Frame(bytes: Bytes) | Raises(error: PyError)

  const CACHE_LIMIT: nat := 256

  // ---------- Plain encoding ----------

  /** One code point in UTF-8; surrogates cannot be encoded. */
  function Utf8Of(c: CodePoint): Option<Bytes> {
    if c < 0x80 then Some([c])
    else if c < 0x800 then Some([0xC0 + c / 64, 0x80 + c % 64])
    else if 0xD800 <= c < 0xE000 then None
    else if c < 0x1_0000 then Some([0xE0 + c / 4096, 0x80 + c / 64 % 64, 0x80 + c % 64])
    else Some([0xF0 + c / 262144, 0x80 + c / 4096 % 64, 0x80 + c / 64 % 64, 0x80 + c % 64])
  }

  function Utf8(s: PyStr): Option<Bytes> {
    if s == [] then Some([])
    else
      match (Utf8Of(s[0]), Utf8(s[1..]))
      case (Some(b), Some(bs)) => Some(b + bs)
      case _ => None
  }

  /** How many bytes a lead byte announces. */
  function LengthOf(lead: Byte): nat {
    if lead < 0x80 then 1 else if lead < 0xE0 then 2 else if lead < 0xF0 then 3 else 4
  }

  /** The number behind the marks of one encoded character. */
  function CodeOf(b: Bytes): int
    requires b != [] && |b| == LengthOf(b[0])
  {
    var lead: int := b[0];
    if |b| == 1 then lead
    else
      var b1: int := b[1];
      if |b| == 2 then (lead - 0xC0) * 0x40 + (b1 - 0x80)
      else
        var b2: int := b[2];
        if |b| == 3 then (lead - 0xE0) * 0x1000 + (b1 - 0x80) * 0x40 + (b2 - 0x80)
        else
          var b3: int := b[3];
          (lead - 0xF0) * 0x4_0000 + (b1 - 0x80) * 0x1000 + (b2 - 0x80) * 0x40 + (b3 - 0x80)
  }

  /** An independent decoder, character by character. */
  function DecodeUtf8(b: Bytes): Option<PyStr>
    decreases |b|
  {
    if b == [] then Some([])
    else
      var n := LengthOf(b[0]);
      if |b| < n then None
      else
        var c := CodeOf(b[..n]);
        match DecodeUtf8(b[n..])
        case None => None
        case Some(s) => if 0 <= c < 0x11_0000 then Some([c] + s) else None
  }

  lemma Sextets(c: nat)
    ensures c == c / 64 * 64 + c % 64
    ensures c == c / 4096 * 4096 + c / 64 % 64 * 64 + c % 64
    ensures c == c / 262144 * 262144 + c / 4096 % 64 * 4096 + c / 64 % 64 * 64 + c % 64
  {
    assert c / 4096 == c / 64 / 64 && c / 262144 == c / 4096 / 64;
  }

  lemma CodeOfUtf8(c: CodePoint)
    requires Utf8Of(c).Some?
    ensures var b := Utf8Of(c).value;
            b != [] && |b| == LengthOf(b[0]) && CodeOf(b) == c
  {
    Sextets(c);
  }

  lemma DecodeOne(c: CodePoint, rest: Bytes)
    requires Utf8Of(c).Some?
    ensures DecodeUtf8(Utf8Of(c).value + rest)
            == if DecodeUtf8(rest).None? then None else Some([c] + DecodeUtf8(rest).value)
  {
    var one := Utf8Of(c).value;
    CodeOfUtf8(c);
    assert (one + rest)[..|one|] == one && (one + rest)[|one|..] == rest;
  }

  /** Decoding recovers every string that can be encoded. */
  lemma {:induction false} Utf8RoundTrip(s: PyStr)
    requires Utf8(s).Some?
    ensures DecodeUtf8(Utf8(s).value) == Some(s)
  {
    if s != [] {
      Utf8RoundTrip(s[1..]);
      DecodeOne(s[0], Utf8(s[1..]).value);
      assert Utf8(s).value == Utf8Of(s[0]).value + Utf8(s[1..]).value;
      assert [s[0]] + s[1..] == s;
    }
  }

  /** Exactly the strings without surrogates can be encoded. */
  lemma {:induction false} Utf8FailsIff(s: PyStr)
    ensures Utf8(s).None? <==> exists i :: 0 <= i < |s| && 0xD800 <= s[i] <= 0xDFFF
  {
    if s != [] {
      Utf8FailsIff(s[1..]);
      if Utf8(s[1..]).None? {
        var i :| 0 <= i < |s[1..]| && 0xD800 <= s[1..][i] <= 0xDFFF;
        assert s[i + 1] == s[1..][i];
      }
      assert forall i | 1 <= i < |s| :: s[i] == s[1..][i - 1];
    }
  }

  /** ASCII is encoded as itself. */
  lemma {:induction false} AsciiIsItself(s: PyStr)
    requires forall i | 0 <= i < |s| :: s[i] < 128
    ensures Utf8(s).Some? && |Utf8(s).value| == |s|
    ensures forall i | 0 <= i < |s| :: Utf8(s).value[i] == s[i]
  {
    if s != [] {
      AsciiIsItself(s[1..]);
    }
  }

  /** One character of each length: U+00E9, U+20AC and U+1F600. */
  lemma Utf8Examples()
    ensures Utf8Of(0xE9) == Some([0xC3, 0xA9])
    ensures Utf8Of(0x20AC) == Some([0xE2, 0x82, 0xAC])
    ensures Utf8Of(0x1_F600) == Some([0xF0, 0x9F, 0x98, 0x80])
  {
  }

  /** A name behind its 16-bit length; `struct` refuses a length over 65535. */
  function PackName(name: PyStr): Packed {
    match Utf8(name)
    case None => Raises(UnicodeEncodeError)
    case Some(b) => if |b| > 0xffff then Raises(StructError) else Frame(String16(b))
  }

  /** The cached part of a push frame: count 1 and the channel name. */
  function PushHeader(channel: PyStr): Packed {
    match PackName(channel)
    case Raises(e) => Raises(e)
    case Frame(b) => Frame(BigEndian(1, 2) + b)
  }

  function PackNames(names: seq<PyStr>): Packed {
    if names == [] then Frame([])
    else
      match PackName(names[0])
      case Raises(e) => Raises(e)
      case Frame(b) =>
        match PackNames(names[1..])
        case Raises(e) => Raises(e)
        case Frame(bs) => Frame(b + bs)
  }

  /** The first name that does not pack decides the exception. */
  lemma {:induction false} FirstBadName(names: seq<PyStr>) returns (k: nat)
    requires PackNames(names).Raises?
    ensures k < |names| && (forall j | 0 <= j < k :: PackName(names[j]).Frame?)
    ensures PackName(names[k]) == PackNames(names)
    ensures PackNames(names) == Raises(if Utf8(names[k]).None? then UnicodeEncodeError else StructError)
    decreases |names|
  {
    if PackName(names[0]).Raises? {
      k := 0;
    } else {
      k := FirstBadName(names[1..]);
      k := k + 1;
    }
  }

  datatype PopKey = PopKey(channels: seq<PyStr>, timeoutMS: int)

  predicate IsInt64(x: int) {
    -TWO_63 <= x < TWO_63
  }

  function PopFrame(key: PopKey): Packed {
    if !IsInt64(key.timeoutMS) || |key.channels| > 0xffff then Raises(StructError)
    else
      match PackNames(key.channels)
      case Raises(e) => Raises(e)
      case Frame(names) =>
        Frame([OP_POP] + BigEndian(Unsigned(key.timeoutMS), 8) + BigEndian(|key.channels|, 2)
              + names + BigEndian(0, 4))
  }

  /** The names as the bytes the daemon sees. */
  predicate EncodesTo(names: seq<PyStr>, bytes: seq<Bytes>) {
    |names| == |bytes| && forall i | 0 <= i < |names| :: Utf8(names[i]) == Some(bytes[i])
  }

  function BytesOf(name: PyStr): Bytes {
    match Utf8(name)
    case Some(b) => b
    case None => []
  }

  function AllBytesOf(names: seq<PyStr>): (r: seq<Bytes>)
    ensures |r| == |names| && forall i | 0 <= i < |names| :: r[i] == BytesOf(names[i])
  {
    seq(|names|, i requires 0 <= i < |names| => BytesOf(names[i]))
  }

  lemma {:induction false} PackedNamesEncode(names: seq<PyStr>)
    requires PackNames(names).Frame?
    ensures EncodesTo(names, AllBytesOf(names))
    decreases |names|
  {
    if names != [] {
      PackedNamesEncode(names[1..]);
      assert forall i | 1 <= i < |names| :: names[i] == names[1..][i - 1] && Utf8(names[1..][i - 1]).Some?;
    }
  }

  lemma {:induction false} PackNamesIsStrings16(names: seq<PyStr>, bytes: seq<Bytes>)
    requires EncodesTo(names, bytes)
    ensures PackNames(names).Frame? <==> ShortNames(bytes)
    ensures PackNames(names).Frame? ==> PackNames(names).bytes == Strings16(bytes)
    decreases |names|
  {
    if names != [] {
      PackNamesIsStrings16(names[1..], bytes[1..]);
      assert bytes == [bytes[0]] + bytes[1..];
    }
  }

  /** A pop frame is packed exactly when the daemon's encoder could write the
      fields, and it is then byte for byte the daemon's encoding. */
  lemma PopFrameIsRequestFrame(key: PopKey, bytes: seq<Bytes>)
    requires EncodesTo(key.channels, bytes)
    ensures PopFrame(key).Frame? <==> IsInt64(key.timeoutMS) && |bytes| <= 0xffff && ShortNames(bytes)
    ensures PopFrame(key).Frame? ==> PopFrame(key).bytes == RequestFrame(Request("pop", bytes, [], key.timeoutMS))
  {
    PackNamesIsStrings16(key.channels, bytes);
    assert BigEndian(0, 4) == Bytes32([]);
  }

  lemma PushGlue(a: Bytes, b: Bytes, c: Bytes, d: Bytes, e: Bytes, f: Bytes)
    ensures a + b + (c + d) + e + f == (a + b + c) + d + (e + f)
  {
  }

  /** The same for push: header, then payload behind its 32-bit length. */
  lemma PushFrameIsRequestFrame(channel: PyStr, bytes: Bytes, payload: Payload)
    requires Utf8(channel) == Some(bytes)
    ensures PushHeader(channel).Frame? <==> |bytes| <= 0xffff
    ensures PushHeader(channel).Frame? ==>
              [OP_PUSH] + BigEndian(0, 8) + PushHeader(channel).bytes + BigEndian(|payload|, 4) + payload
              == RequestFrame(Request("push", [bytes], payload, 0))
  {
    if |bytes| <= 0xffff {
      assert Strings16([bytes]) == String16(bytes) + Strings16([]) == String16(bytes);
      PushGlue([OP_PUSH], BigEndian(0, 8), BigEndian(1, 2), String16(bytes), BigEndian(|payload|, 4), payload);
    }
  }

  /** The requests that the two kinds of send stand for. */
  function PushRequest(channel: PyStr, payload: Payload): Request {
    Request("push", [BytesOf(channel)], payload, 0)
  }

  function PopRequest(key: PopKey): Request
    requires IsInt64(key.timeoutMS)
  {
    Request("pop", AllBytesOf(key.channels), [], key.timeoutMS)
  }

  lemma PackedPushFrame(channel: PyStr, payload: Payload)
    requires PushHeader(channel).Frame?
    ensures [OP_PUSH] + BigEndian(0, 8) + PushHeader(channel).bytes + BigEndian(|payload|, 4) + payload
            == RequestFrame(PushRequest(channel, payload))
  {
    PushFrameIsRequestFrame(channel, BytesOf(channel), payload);
  }

  lemma PackedPopFrame(key: PopKey)
    requires PopFrame(key).Frame?
    ensures IsInt64(key.timeoutMS) && PopFrame(key).bytes == RequestFrame(PopRequest(key))
  {
    PackedNamesEncode(key.channels);
    PopFrameIsRequestFrame(key, AllBytesOf(key.channels));
  }

  // ---------- Recency ----------

  function Drop<K(==)>(s: seq<K>, k: K): seq<K> {
    if s == [] then [] else if s[0] == k then Drop(s[1..], k) else [s[0]] + Drop(s[1..], k)
  }

  /** The distinct keys of a history of uses, least recently used first. */
  function Recent<K(==)>(uses: seq<K>): seq<K> {
    if uses == [] then []
    else Drop(Recent(uses[..|uses| - 1]), uses[|uses| - 1]) + [uses[|uses| - 1]]
  }

  function Window<K>(s: seq<K>, n: nat): seq<K> {
    if |s| <= n then s else s[|s| - n..]
  }

  predicate Distinct<K(==)>(s: seq<K>) {
    forall i, j | 0 <= i < j < |s| :: s[i] != s[j]
  }

  lemma {:induction false} DropAbsent<K>(s: seq<K>, k: K)
    requires k !in s
    ensures Drop(s, k) == s
  {
    if s != [] {
      DropAbsent(s[1..], k);
    }
  }

  /** Dropping the one occurrence of a key from a list without repetition. */
  lemma {:induction false} DropAt<K>(s: seq<K>, x: nat)
    requires Distinct(s) && x < |s|
    ensures Drop(s, s[x]) == s[..x] + s[x + 1..]
    decreases |s|
  {
    var k := s[x];
    if x == 0 {
      DropAbsent(s[1..], k);
    } else {
      assert Distinct(s[1..]);
      DropAt(s[1..], x - 1);
      assert s[..x] == [s[0]] + s[1..][..x - 1] && s[x + 1..] == s[1..][x..];
    }
  }

  lemma {:induction false} DropMembers<K>(s: seq<K>, k: K)
    ensures forall y :: y in Drop(s, k) <==> y in s && y != k
    ensures Distinct(s) ==> Distinct(Drop(s, k))
    ensures |Drop(s, k)| <= |s|
  {
    if s != [] {
      DropMembers(s[1..], k);
      assert s == [s[0]] + s[1..];
      if Distinct(s) && s[0] != k {
        assert s[0] !in s[1..] by {
          assert forall i | 0 <= i < |s[1..]| :: s[1..][i] == s[i + 1];
        }
        assert s[0] !in Drop(s[1..], k);
      }
    }
  }

  /** `Recent` lists each key that was used, once. */
  lemma {:induction false} RecentIsDistinct<K>(uses: seq<K>)
    ensures Distinct(Recent(uses))
    ensures forall y :: y in Recent(uses) <==> y in uses
    decreases |uses|
  {
    if uses != [] {
      var h, k := uses[..|uses| - 1], uses[|uses| - 1];
      RecentIsDistinct(h);
      DropMembers(Recent(h), k);
      assert k !in Drop(Recent(h), k);
      assert uses == h + [k];
    }
  }

  /** When a key was last used. */
  function LastUse<K(==)>(uses: seq<K>, k: K): (t: int)
    ensures -1 <= t < |uses|
  {
    if uses == [] then -1
    else if uses[|uses| - 1] == k then |uses| - 1
    else LastUse(uses[..|uses| - 1], k)
  }

  /** Where the i-th key stood before `k` was dropped. */
  function PlaceBefore<K(==)>(s: seq<K>, k: K, i: nat): nat {
    if k in s[..if i < |s| then i + 1 else |s|] then i + 1 else i
  }

  lemma DropPlace<K>(s: seq<K>, k: K, i: nat)
    requires Distinct(s) && i < |Drop(s, k)|
    ensures PlaceBefore(s, k, i) < |s| && s[PlaceBefore(s, k, i)] == Drop(s, k)[i]
  {
    if k in s {
      var x :| 0 <= x < |s| && s[x] == k;
      DropAt(s, x);
      assert k in s[..if i < |s| then i + 1 else |s|] <==> x <= i;
    } else {
      DropAbsent(s, k);
    }
  }

  lemma OlderKey<K>(uses: seq<K>, i: nat)
    requires i < |Recent(uses)| - 1
    ensures LastUse(uses, Recent(uses)[i]) == LastUse(uses[..|uses| - 1], Recent(uses)[i]) < |uses| - 1
  {
    var r := Recent(uses);
    RecentIsDistinct(uses);
    assert r[i] != r[|r| - 1] == uses[|uses| - 1];
  }

  /** `Recent` is in order of last use. */
  lemma {:induction false} RecentIsOrdered<K>(uses: seq<K>, i: nat, j: nat)
    requires i < j < |Recent(uses)|
    ensures LastUse(uses, Recent(uses)[i]) < LastUse(uses, Recent(uses)[j])
    decreases |uses|
  {
    var h, k := uses[..|uses| - 1], uses[|uses| - 1];
    OlderKey(uses, i);
    if j < |Recent(uses)| - 1 {
      OlderKey(uses, j);
      RecentIsDistinct(h);
      DropPlace(Recent(h), k, i);
      DropPlace(Recent(h), k, j);
      RecentIsOrdered(h, PlaceBefore(Recent(h), k, i), PlaceBefore(Recent(h), k, j));
    }
  }

  /** Removing a key inside the window and appending it moves no other. */
  lemma WindowHit<K>(r: seq<K>, x: nat, n: nat)
    requires x < |r| && |r| - n <= x
    ensures var w, y := Window(r, n), x - (|r| - |Window(r, n)|);
            Window(r[..x] + r[x + 1..] + [r[x]], n) == w[..y] + w[y + 1..] + [r[x]]
  {
  }

  /** Removing a key before the window does not change the window. */
  lemma WindowMiss<K>(r: seq<K>, x: nat, k: K, n: nat)
    requires 0 < n && x < |r| - n
    ensures Window(Window(r, n) + [k], n) == Window(r[..x] + r[x + 1..] + [k], n)
  {
  }

  lemma BeforeWindow<K>(r: seq<K>, x: nat, n: nat)
    requires x < |r| && r[x] !in Window(r, n)
    ensures x < |r| - n
  {
  }

  lemma WindowAppend<K>(r: seq<K>, k: K, n: nat)
    requires 0 < n
    ensures Window(Window(r, n) + [k], n) == Window(r + [k], n)
  {
  }

  lemma RecentSnoc<K>(uses: seq<K>, k: K)
    ensures Recent(uses + [k]) == Drop(Recent(uses), k) + [k]
  {
  }

  /** A hit: moving the key to the end keeps the window of recent keys. */
  lemma HitKeepsWindow<K>(uses: seq<K>, y: nat, n: nat)
    requires y < |Window(Recent(uses), n)|
    ensures var w := Window(Recent(uses), n);
            w[..y] + w[y + 1..] + [w[y]] == Window(Recent(uses + [w[y]]), n)
  {
    var r := Recent(uses);
    var x := y + |r| - |Window(r, n)|;
    RecentIsDistinct(uses);
    RecentSnoc(uses, r[x]);
    DropAt(r, x);
    WindowHit(r, x, n);
  }

  /** A miss: appending the key and evicting the oldest keeps it too. */
  lemma MissKeepsWindow<K>(uses: seq<K>, k: K, n: nat)
    requires n > 0 && k !in Window(Recent(uses), n)
    ensures Window(Window(Recent(uses), n) + [k], n) == Window(Recent(uses + [k]), n)
  {
    var r := Recent(uses);
    RecentSnoc(uses, k);
    if k in r {
      var x :| 0 <= x < |r| && r[x] == k;
      RecentIsDistinct(uses);
      DropAt(r, x);
      BeforeWindow(r, x, n);
      WindowMiss(r, x, k, n);
    } else {
      DropAbsent(r, k);
      WindowAppend(r, k, n);
    }
  }

  // ---------- The client ----------

  datatype Entry<K> = Entry(key: K, bytes: Bytes)

  function Keys<K>(cache: seq<Entry<K>>): (r: seq<K>)
    ensures |r| == |cache| && forall i | 0 <= i < |cache| :: r[i] == cache[i].key
  {
    seq(|cache|, i requires 0 <= i < |cache| => cache[i].key)
  }

  /** `OrderedDict` lookup: the position of a key, or the length. */
  function Find<K(==)>(cache: seq<Entry<K>>, k: K): (x: nat)
    ensures x <= |cache|
    ensures x < |cache| ==> cache[x].key == k
    ensures x == |cache| <==> k !in Keys(cache)
  {
    if cache == [] then 0
    else if cache[0].key == k then
      assert Keys(cache)[0] == k;
      0
    else
      assert Keys(cache) == [cache[0].key] + Keys(cache[1..]);
      1 + Find(cache[1..], k)
  }

  function MoveToEnd<K>(cache: seq<Entry<K>>, x: nat): seq<Entry<K>>
    requires x < |cache|
  {
    cache[..x] + cache[x + 1..] + [cache[x]]
  }

  /** `_cache_put` for a key that is not in the cache. */
  function CachePut<K>(cache: seq<Entry<K>>, k: K, b: Bytes): seq<Entry<K>> {
    var longer := cache + [Entry(k, b)];
    if |longer| > CACHE_LIMIT then longer[1..] else longer
  }

  /** The cache holds exactly the most recently used keys, in recency order. */
  predicate Follows<K(==)>(cache: seq<Entry<K>>, uses: seq<K>) {
    Keys(cache) == Window(Recent(uses), CACHE_LIMIT)
  }

  /** The cache holds every key used while they are at most 256, and the 256
      most recent ones after that. */
  lemma CacheSize<K>(cache: seq<Entry<K>>, uses: seq<K>)
    requires Follows(cache, uses)
    ensures var r := Recent(uses);
            && |cache| == (if |r| <= 256 then |r| else 256)
            && forall i | 0 <= i < |cache| :: cache[i].key == r[|r| - |cache| + i]
  {
    assert forall i | 0 <= i < |cache| :: Keys(cache)[i] == cache[i].key;
  }

  lemma MoveToEndFollows<K>(cache: seq<Entry<K>>, uses: seq<K>, x: nat)
    requires Follows(cache, uses) && x < |cache|
    ensures Follows(MoveToEnd(cache, x), uses + [cache[x].key])
    ensures forall e | e in MoveToEnd(cache, x) :: e in cache
  {
    var keys := Keys(cache);
    HitKeepsWindow(uses, x, CACHE_LIMIT);
    assert Keys(MoveToEnd(cache, x)) == keys[..x] + keys[x + 1..] + [keys[x]];
  }

  lemma CachePutFollows<K>(cache: seq<Entry<K>>, uses: seq<K>, k: K, b: Bytes)
    requires Follows(cache, uses) && k !in Keys(cache)
    ensures Follows(CachePut(cache, k, b), uses + [k]) && |CachePut(cache, k, b)| <= CACHE_LIMIT
    ensures forall e | e in CachePut(cache, k, b) :: e in cache || e == Entry(k, b)
  {
    MissKeepsWindow(uses, k, CACHE_LIMIT);
    assert Keys(cache + [Entry(k, b)]) == Keys(cache) + [k];
    assert Keys(CachePut(cache, k, b)) == Window(Keys(cache) + [k], CACHE_LIMIT);
  }

  class Client {
    var pushCache: seq<Entry<PyStr>>
    var popCache: seq<Entry<PopKey>>
    var sent: Bytes
    ghost var pushUses: seq<PyStr>
    ghost var popUses: seq<PopKey>
    ghost var log: seq<Request>

    /** Each cache holds the recent keys, each with its own plain encoding, and
        what was sent is the daemon's encoding of the requests so far. */
    ghost predicate Valid()
      reads this
    {
      && Follows(pushCache, pushUses) && (forall e | e in pushCache :: PushHeader(e.key) == Frame(e.bytes))
      && Follows(popCache, popUses) && (forall e | e in popCache :: PopFrame(e.key) == Frame(e.bytes))
      && sent == RequestFrames(log)
    }

    constructor ()
      ensures Valid() && sent == [] && pushUses == [] && popUses == [] && log == []
    {
      pushCache, popCache, sent := [], [], [];
      pushUses, popUses, log := [], [], [];
    }

    /** `sendall` of the frame that encodes `req`. */
    method SendAll(frame: Bytes, ghost req: Request)
      requires Valid() && frame == RequestFrame(req)
      modifies this`sent, this`log
      ensures Valid() && sent == old(sent) + RequestFrame(req) && log == old(log) + [req]
    {
      RequestFramesSnoc(log, req);
      sent, log := sent + frame, log + [req];
    }

    /** The cached part of a push frame, hit or miss. */
    method CachedHeader(channel: PyStr) returns (header: Packed)
      requires Valid()
      modifies this`pushCache, this`pushUses
      ensures Valid() && header == PushHeader(channel)
      ensures pushUses == if header.Frame? then old(pushUses) + [channel] else old(pushUses)
      ensures header.Raises? ==> pushCache == old(pushCache)
    {
      var x := Find(pushCache, channel);
      if x == |pushCache| {
        header := PushHeader(channel);
        if header.Raises? {
          return;
        }
        CachePutFollows(pushCache, pushUses, channel, header.bytes);
        pushCache := CachePut(pushCache, channel, header.bytes);
      } else {
        header := Frame(pushCache[x].bytes);
        assert pushCache[x] in pushCache;
        MoveToEndFollows(pushCache, pushUses, x);
        pushCache := MoveToEnd(pushCache, x);
      }
      pushUses := pushUses + [channel];
    }

    /** A whole pop frame, hit or miss. */
    method CachedPopFrame(key: PopKey) returns (frame: Packed)
      requires Valid()
      modifies this`popCache, this`popUses
      ensures Valid() && frame == PopFrame(key)
      ensures popUses == if frame.Frame? then old(popUses) + [key] else old(popUses)
      ensures frame.Raises? ==> popCache == old(popCache)
    {
      var x := Find(popCache, key);
      if x == |popCache| {
        frame := PopFrame(key);
        if frame.Raises? {
          return;
        }
        CachePutFollows(popCache, popUses, key, frame.bytes);
        popCache := CachePut(popCache, key, frame.bytes);
      } else {
        frame := Frame(popCache[x].bytes);
        assert popCache[x] in popCache;
        MoveToEndFollows(popCache, popUses, x);
        popCache := MoveToEnd(popCache, x);
      }
      popUses := popUses + [key];
    }

    /** The frame of a push, extended part by part; `struct` refuses a payload
        length over 32 bits. */
    method PushFrame(header: Bytes, payload: Payload, ghost channel: PyStr) returns (r: Packed)
      requires PushHeader(channel) == Frame(header)
      ensures r == if |payload| >= TWO_32 then Raises(StructError)
                   else Frame(RequestFrame(PushRequest(channel, payload)))
    {
      var frame: Bytes := [OP_PUSH];
      frame := frame + BigEndian(0, 8);
      frame := frame + header;
      if |payload| >= TWO_32 {
        return Raises(StructError);
      }
      frame := frame + BigEndian(|payload|, 4);
      frame := frame + payload;
      PackedPushFrame(channel, payload);
      return Frame(frame);
    }

    /** `_send_push`: hit or miss, what goes out is the plain frame. A name
        that does not pack changes nothing; an oversized payload fails after
        the cache was updated. */
    method SendPush(channel: PyStr, payload: Payload) returns (failure: Option<PyError>)
      requires Valid()
      modifies this
      ensures Valid() && popCache == old(popCache) && popUses == old(popUses)
      ensures failure.None? <==> PushHeader(channel).Frame? && |payload| < TWO_32
      ensures if failure.None?
              then sent == old(sent) + RequestFrame(PushRequest(channel, payload))
                   && log == old(log) + [PushRequest(channel, payload)]
              else sent == old(sent) && log == old(log)
      ensures pushUses == if PushHeader(channel).Frame? then old(pushUses) + [channel] else old(pushUses)
      ensures PushHeader(channel).Raises? ==> pushCache == old(pushCache) && failure == Some(PushHeader(channel).error)
      ensures PushHeader(channel).Frame? && failure.Some? ==> failure == Some(StructError)
    {
      var header := CachedHeader(channel);
      if header.Raises? {
        return Some(header.error);
      }
      var frame := PushFrame(header.bytes, payload, channel);
      if frame.Raises? {
        return Some(frame.error);
      }
      SendAll(frame.bytes, PushRequest(channel, payload));
      return None;
    }

    /** `_send_pop`: the whole frame is cached. */
    method SendPop(channels: seq<PyStr>, timeoutMS: int) returns (failure: Option<PyError>)
      requires Valid()
      modifies this
      ensures Valid() && pushCache == old(pushCache) && pushUses == old(pushUses)
      ensures var key := PopKey(channels, timeoutMS);
              match PopFrame(key)
              case Frame(_) =>
                && failure.None? && popUses == old(popUses) + [key] && IsInt64(timeoutMS)
                && sent == old(sent) + RequestFrame(PopRequest(key)) && log == old(log) + [PopRequest(key)]
              case Raises(e) =>
                && failure == Some(e) && popUses == old(popUses) && popCache == old(popCache)
                && sent == old(sent) && log == old(log)
    {
      var key := PopKey(channels, timeoutMS);
      var frame := CachedPopFrame(key);
      if frame.Raises? {
        return Some(frame.error);
      }
      PackedPopFrame(key);
      SendAll(frame.bytes, PopRequest(key));
      return None;
    }
  }

  // ---------- The response reader ----------

  datatype Reply = Reply(response: Response, rest: Bytes)

  /** A buffered `read(n)`: fewer bytes only at the end of the stream. */
  function Take(s: Bytes, n: nat): Bytes {
    if n <= |s| then s[..n] else s
  }

  function Skip(s: Bytes, n: nat): Bytes {
    if n <= |s| then s[n..] else []
  }

  /** A length-prefixed field as it is read: `whole` is false when the stream
      ended inside it, which is only checked after the last field. */
  datatype Field = Field(bytes: Bytes, whole: bool, rest: Bytes)

  /** `None` when the length itself is cut short and `unpack` raises. */
  function ReadField(s: Bytes, width: nat): Option<Field> {
    var header, body := Take(s, width), Skip(s, width);
    if |header| != width then None
    else
      var n := FromBigEndian(header);
      Some(Field(Take(body, n), |Take(body, n)| == n, Skip(body, n)))
  }

  /** `_read_response`; `None` stands for the exception at the end of file. */
  function ReadResponse(s: Bytes): Option<Reply> {
    var status := Take(s, 1);
    if |status| < 1 then None
    else
      match ReadField(Skip(s, 1), 2)
      case None => None
      case Some(channel) =>
        match ReadField(channel.rest, 4)
        case None => None
        case Some(payload) =>
          match ReadField(payload.rest, 4)
          case None => None
          case Some(error) =>
            if !channel.whole || !payload.whole || !error.whole then None
            else Some(Reply(Response(status[0] == STATUS_OK, channel.bytes, payload.bytes, error.bytes), error.rest))
  }

  class Stream {
    const data: Bytes
    var pos: nat

    ghost predicate Valid()
      reads this
    {
      pos <= |data|
    }

    ghost function Rest(): Bytes
      requires Valid()
      reads this
    {
      data[pos..]
    }

    constructor (data: Bytes)
      ensures Valid() && Rest() == data && this.data == data
    {
      this.data := data;
      pos := 0;
    }

    method Read(n: nat) returns (bytes: Bytes)
      requires Valid()
      modifies this
      ensures Valid() && bytes == Take(old(Rest()), n) && Rest() == Skip(old(Rest()), n)
    {
      var k := if n <= |data| - pos then n else |data| - pos;
      bytes := data[pos..pos + k];
      assert data[pos..][..k] == bytes && data[pos..][k..] == data[pos + k..];
      pos := pos + k;
    }

    /** The length, then that many bytes if it is not zero. */
    method ReadPrefixed(width: nat) returns (field: Option<(nat, Bytes)>)
      requires Valid()
      modifies this
      ensures Valid()
      ensures match ReadField(old(Rest()), width)
              case None => field == None
              case Some(f) =>
                field.Some? && field.value.1 == f.bytes && (|f.bytes| == field.value.0 <==> f.whole) && Rest() == f.rest
    {
      var header := Read(width);
      if |header| != width {
        return None;
      }
      var n, body := FromBigEndian(header), [];
      if n != 0 {
        body := Read(n);
      }
      return Some((n, body));
    }

    method ReadReply() returns (reply: Option<Response>)
      requires Valid()
      modifies this
      ensures Valid()
      ensures match ReadResponse(old(Rest()))
              case None => reply == None
              case Some(y) => reply == Some(y.response) && Rest() == y.rest
    {
      var status := Read(1);
      if |status| < 1 {
        return None;
      }
      var channel := ReadPrefixed(2);
      if channel.None? {
        return None;
      }
      var payload := ReadPrefixed(4);
      if payload.None? {
        return None;
      }
      var error := ReadPrefixed(4);
      if error.None? {
        return None;
      }
      if |channel.value.1| != channel.value.0 || |payload.value.1| != payload.value.0
         || |error.value.1| != error.value.0 {
        return None;
      }
      return Some(Response(status[0] == STATUS_OK, channel.value.1, payload.value.1, error.value.1));
    }
  }

  /** A field that was cut short leaves an empty stream, where the next length
      cannot be read. */
  lemma CutShort(s: Bytes, width: nat)
    ensures ReadField(s, width).Some? && !ReadField(s, width).value.whole ==> ReadField(s, width).value.rest == []
    ensures ReadField([], 4) == None
  {
  }

  /** The field does not end well: whatever follows, the reader raises. */
  predicate Broken(f: Option<Field>) {
    f.None? || (!f.value.whole && f.value.rest == [])
  }

  lemma FieldIsString16(s: Bytes)
    ensures match ParseString16(s)
            case Parsed(x, rest) => ReadField(s, 2) == Some(Field(x, true, rest))
            case Failed(_) => Broken(ReadField(s, 2))
  {
  }

  lemma FieldIsBytes32(s: Bytes, max: int)
    ensures match ParseBytes32(s, max)
            case Parsed(x, rest) => ReadField(s, 4) == Some(Field(x, true, rest))
            case Failed(_) =>
              Broken(ReadField(s, 4)) || (ReadField(s, 4).value.whole && |ReadField(s, 4).value.bytes| > max)
  {
  }

  /** `ReadResponse` from its three fields. */
  lemma ReadResponseFields(s: Bytes, c: Option<Field>, p: Option<Field>, e: Option<Field>)
    requires s != [] && c == ReadField(s[1..], 2)
    requires p == if c.Some? then ReadField(c.value.rest, 4) else None
    requires e == if p.Some? then ReadField(p.value.rest, 4) else None
    ensures Broken(c) || Broken(p) || Broken(e) ==> ReadResponse(s) == None
    ensures c.Some? && p.Some? && e.Some? && c.value.whole && p.value.whole && e.value.whole ==>
              ReadResponse(s) == Some(Reply(
                Response(s[0] == STATUS_OK, c.value.bytes, p.value.bytes, e.value.bytes), e.value.rest))
  {
  }

  /** Agreement with `readResponse`: the daemon's reader accepts exactly what
      this reader accepts with a known status and fields within the limits,
      and both return the same fields and the same rest. */
  lemma AgreesWithReadResponse(s: Bytes)
    ensures match ParseResponse(s)
            case Parsed(r, rest) => ReadResponse(s) == Some(Reply(r, rest))
            case Failed(_) =>
              match ReadResponse(s)
              case None => true
              case Some(y) =>
                || s[0] !in {STATUS_OK, STATUS_ERROR}
                || |y.response.payload| > DEFAULT_MAX_BYTES
                || |y.response.error| > MAX_ERROR_SIZE
  {
    if s != [] {
      var c := ReadField(s[1..], 2);
      var p := if c.Some? then ReadField(c.value.rest, 4) else None;
      var e := if p.Some? then ReadField(p.value.rest, 4) else None;
      FieldIsString16(s[1..]);
      if c.Some? {
        FieldIsBytes32(c.value.rest, DEFAULT_MAX_BYTES);
      }
      if p.Some? {
        FieldIsBytes32(p.value.rest, MAX_ERROR_SIZE);
      }
      ReadResponseFields(s, c, p, e);
    }
  }

  /** Any response the daemon writes is read back whole. */
  lemma ReadsDaemonResponses(resp: Response, t: Bytes)
    requires Sendable(resp)
    ensures ReadResponse(ResponseFrame(resp) + t) == Some(Reply(resp, t))
  {
    ResponseRoundTrip(resp, t);
    AgreesWithReadResponse(ResponseFrame(resp) + t);
  }
}
