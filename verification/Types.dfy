/** Values shared by the whole daemon: byte strings, deliveries, limits and
    the two validators of main.go. Go strings are byte strings. */
module Types {
  type Byte = x: int | 0 <= x < 256
  type Bytes = seq<Byte>
  type Channel = Bytes
  type Payload = Bytes

  const TWO_30: int := 0x4000_0000
  const TWO_32: int := 0x1_0000_0000
  const TWO_63: int := 0x8000_0000_0000_0000
  const TWO_64: int := 0x1_0000_0000_0000_0000

  type Int64 = x: int | -0x8000_0000_0000_0000 <= x < 0x8000_0000_0000_0000

  /** The per-message cap, 256 << 20. */
  const DEFAULT_MAX_BYTES: int := 268435456

  datatype Option<+T> = None | Some(value: T)

  datatype Result<+T, +E> = Success(value: T) | Failure(error: E)

  datatype Delivery = Delivery(channel: Channel, payload: Payload)

  predicate IsAlphanumeric(b: Byte) {
    65 <= b <= 90 || 97 <= b <= 122 || 48 <= b <= 57
  }

  /** `.` is 46, `_` is 95 and `-` is 45. */
  predicate IsChannelByte(b: Byte) {
    IsAlphanumeric(b) || b == 46 || b == 95 || b == 45
  }

  /** The channel pattern: an alphanumeric byte, then at most 127 channel bytes. */
  predicate ValidChannel(c: Channel) {
    && 1 <= |c| <= 128
    && IsAlphanumeric(c[0])
    && forall i | 1 <= i < |c| :: IsChannelByte(c[i])
  }

  predicate ValidPayload(p: Payload, maxBytes: int) {
    |p| <= maxBytes
  }
  /** The pattern `[A-Za-z0-9][A-Za-z0-9._-]{0,127}`, in characters. */
  lemma ChannelPattern(c: Channel)
    ensures ValidChannel(c) <==>
              && 0 < |c| < 129
              && (forall i | 0 <= i < |c| ::
                    var b := c[i] as char;
                    'A' <= b <= 'Z' || 'a' <= b <= 'z' || '0' <= b <= '9' || (i > 0 && b in "._-"))
  {
    if ValidChannel(c) {
      forall i | 0 <= i < |c|
        ensures var b := c[i] as char;
                'A' <= b <= 'Z' || 'a' <= b <= 'z' || '0' <= b <= '9' || (i > 0 && b in "._-")
      {
        assert IsChannelByte(c[i]);
        assert "._-"[0] == '.' && "._-"[1] == '_' && "._-"[2] == '-';
      }
    }
  }

  /** The limits of the pattern at work: 128 bytes pass and 129 do not, and
      neither do ".a" and "a/b". */
  lemma ChannelExamples()
    ensures ValidChannel(seq(128, _ => 97)) && !ValidChannel(seq(129, _ => 97))
    ensures !ValidChannel([]) && !ValidChannel([46, 97]) && !ValidChannel([97, 47, 98])
    ensures ValidChannel([97, 46, 95, 45, 90, 48])
  {
    var slash: Channel := [97, 47, 98];
    assert !IsChannelByte(slash[1]);
  }

  lemma PayloadLimit(p: Payload)
    ensures ValidPayload(p, DEFAULT_MAX_BYTES) <==> |p| <= 256 * 1024 * 1024
  {
  }
}
