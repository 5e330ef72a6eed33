/** Time stamps and clock references: 33-bit values scattered over bytes between marker bits
    (src/pes.rs `Timestamp`, src/packet.rs `ClockRef`). */
module Clocks {
  import opened Bytes

  // ----- time stamps -----

  const TIMESTAMP_LIMIT: bv64 := 0x2_0000_0000

  datatype TimestampError =
    | IncorrectPrefixBits(expected: byte, actual: byte)
    | MarkerBitNotSet(bitNumber: nat)

  type Stamp = Result<bv64, TimestampError>

  /** The 33 bits of a time stamp, without its prefix and marker bits. */
  function StampBits(b0: byte, b1: byte, b2: byte, b3: byte, b4: byte): bv64 {
    ((b0 & 0x0e) as bv64 << 29) | (b1 as bv64 << 22) | ((b2 & 0xfe) as bv64 << 14) | (b3 as bv64 << 7) | (b4 as bv64 >> 1)
  }

  /** `Timestamp::from_bytes`. */
  function ParseStamp(b: seq<byte>): Stamp
    requires |b| >= 5
  {
    if b[0] & 1 == 0 then Err(MarkerBitNotSet(7))
    else if b[2] & 1 == 0 then Err(MarkerBitNotSet(23))
    else if b[4] & 1 == 0 then Err(MarkerBitNotSet(39))
    else Ok(StampBits(b[0], b[1], b[2], b[3], b[4]))
  }

  function ParsePts(b: seq<byte>): Stamp
    requires |b| >= 5
  {
    var actual := b[0] >> 4;
    if actual != 0x2 && actual != 0x3 then Err(IncorrectPrefixBits(0x2, actual)) else ParseStamp(b)
  }

  function ParseDts(b: seq<byte>): Stamp
    requires |b| >= 5
  {
    var actual := b[0] >> 4;
    if actual != 0x1 then Err(IncorrectPrefixBits(0x1, actual)) else ParseStamp(b)
  }

  function EncodeStamp(prefix: byte, t: bv64): (b: seq<byte>)
    ensures |b| == 5
  {
    [(prefix << 4) | (((t >> 30) & 7) as byte << 1) | 1,
     ((t >> 22) & 0xff) as byte,
     (((t >> 15) & 0x7f) as byte << 1) | 1,
     ((t >> 7) & 0xff) as byte,
     ((t & 0x7f) as byte << 1) | 1]
  }

  lemma StampMarkers(prefix: byte, t: bv64)
    ensures EncodeStamp(prefix, t)[0] & 1 != 0 && EncodeStamp(prefix, t)[2] & 1 != 0 && EncodeStamp(prefix, t)[4] & 1 != 0
  {
  }

  lemma StampValue(prefix: byte, t: bv64)
    requires t < TIMESTAMP_LIMIT
    ensures var b := EncodeStamp(prefix, t); StampBits(b[0], b[1], b[2], b[3], b[4]) == t
  {
  }

  lemma StampPrefix(prefix: byte, t: bv64)
    requires prefix < 16
    ensures EncodeStamp(prefix, t)[0] >> 4 == prefix
  {
  }

  /** Decoding inverts encoding, whatever the four prefix bits. */
  lemma StampRoundTrip(prefix: byte, t: bv64)
    requires t < TIMESTAMP_LIMIT
    ensures ParseStamp(EncodeStamp(prefix, t)) == Ok(t)
    ensures prefix == 0x2 || prefix == 0x3 ==> ParsePts(EncodeStamp(prefix, t)) == Ok(t)
    ensures prefix == 0x1 ==> ParseDts(EncodeStamp(prefix, t)) == Ok(t)
  {
    hide EncodeStamp, StampBits;
    StampMarkers(prefix, t);
    StampValue(prefix, t);
    if prefix < 16 {
      StampPrefix(prefix, t);
    }
  }

  lemma StampFits(b0: byte, b1: byte, b2: byte, b3: byte, b4: byte)
    ensures StampBits(b0, b1, b2, b3, b4) < TIMESTAMP_LIMIT
  {
  }

  lemma StampBack(b0: byte, b1: byte, b2: byte, b3: byte, b4: byte)
    requires b0 & 1 != 0 && b2 & 1 != 0 && b4 & 1 != 0
    ensures EncodeStamp(b0 >> 4, StampBits(b0, b1, b2, b3, b4)) == [b0, b1, b2, b3, b4]
  {
  }

  /** And encoding inverts decoding: five bytes decode to a value of 33 bits exactly when
      they are some encoding of it. */
  lemma StampUnique(b: seq<byte>)
    requires |b| == 5 && ParseStamp(b).Ok?
    ensures ParseStamp(b).value < TIMESTAMP_LIMIT
    ensures EncodeStamp(b[0] >> 4, ParseStamp(b).value) == b
  {
    hide EncodeStamp, StampBits;
    StampFits(b[0], b[1], b[2], b[3], b[4]);
    StampBack(b[0], b[1], b[2], b[3], b[4]);
    assert b == [b[0], b[1], b[2], b[3], b[4]];
  }

  /** What is wrong with other bytes: the first of the marker bits 7, 23 and 39 that is clear, and
      before that, where it is looked at, the prefix. */
  lemma StampRule(b: seq<byte>)
    requires |b| >= 5
    ensures ParseStamp(b).Ok? <==> b[0] & 1 == 1 && b[2] & 1 == 1 && b[4] & 1 == 1
    ensures b[0] & 1 == 0 ==> ParseStamp(b) == Err(MarkerBitNotSet(7))
    ensures b[0] & 1 == 1 && b[2] & 1 == 0 ==> ParseStamp(b) == Err(MarkerBitNotSet(23))
    ensures b[0] & 1 == 1 && b[2] & 1 == 1 && b[4] & 1 == 0 ==> ParseStamp(b) == Err(MarkerBitNotSet(39))
    ensures b[0] >> 4 != 2 && b[0] >> 4 != 3 ==> ParsePts(b) == Err(IncorrectPrefixBits(2, b[0] >> 4))
    ensures b[0] >> 4 == 2 || b[0] >> 4 == 3 ==> ParsePts(b) == ParseStamp(b)
    ensures ParseDts(b) == if b[0] >> 4 == 1 then ParseStamp(b) else Err(IncorrectPrefixBits(1, b[0] >> 4))
  {
    hide StampBits;
    LowBit(b[0]);
    LowBit(b[2]);
    LowBit(b[4]);
  }

  lemma LowBit(b: byte)
    ensures b & 1 == 0 || b & 1 == 1
  {
  }

  const PERIOD := 0x2_0000_0000

  /** `likely_wrapped_since`, on time stamp values. */
  predicate LikelyWrappedSince(now: nat, since: nat) {
    now <= since && since - now > (PERIOD - 1) / 2
  }

  /** Exactly what it says: the counter wrapped, and no more than 2^32 ticks have passed. So it
      is right for every elapsed time up to half the period, and misses every later wrap. */
  lemma WrapDetectedExactly(since: nat, elapsed: nat)
    requires since < PERIOD && elapsed < PERIOD
    ensures LikelyWrappedSince((since + elapsed) % PERIOD, since) <==> since + elapsed >= PERIOD && elapsed <= PERIOD / 2
  {
    if since + elapsed >= PERIOD {
      assert (since + elapsed) % PERIOD == since + elapsed - PERIOD;
    } else {
      assert (since + elapsed) % PERIOD == since + elapsed;
    }
  }

  // ----- clock references -----

  const BASE_LIMIT: bv64 := 0x2_0000_0000
  const EXTENSION_LIMIT: bv16 := 0x200

  datatype ClockRef = ClockRef(base: bv64, extension: bv16)

  ghost predicate ValidClock(c: ClockRef) {
    c.base < BASE_LIMIT && c.extension < EXTENSION_LIMIT
  }

  function ClockBase(b0: byte, b1: byte, b2: byte, b3: byte, b4: byte): bv64 {
    (b0 as bv64 << 25) | (b1 as bv64 << 17) | (b2 as bv64 << 9) | (b3 as bv64 << 1) | (b4 as bv64 >> 7)
  }

  function ClockExtension(b4: byte, b5: byte): bv16 {
    ((b4 as bv16 & 1) << 8) | (b5 as bv16)
  }

  /** `ClockRef::from_slice`: the layout of PCR and OPCR. */
  function ParseClock(b: seq<byte>): ClockRef
    requires |b| >= 6
  {
    ClockRef(ClockBase(b[0], b[1], b[2], b[3], b[4]), ClockExtension(b[4], b[5]))
  }

  /** Six bytes; `other` supplies the six reserved bits. */
  function EncodeClock(c: ClockRef, other: byte): (b: seq<byte>)
    ensures |b| == 6
  {
    [((c.base >> 25) & 0xff) as byte, ((c.base >> 17) & 0xff) as byte, ((c.base >> 9) & 0xff) as byte,
     ((c.base >> 1) & 0xff) as byte,
     ((c.base & 1) as byte << 7) | (other & 0x7e) | (((c.extension >> 8) & 1) as byte),
     (c.extension & 0xff) as byte]
  }

  lemma ClockBaseBack(c: ClockRef, other: byte)
    requires c.base < BASE_LIMIT
    ensures var b := EncodeClock(c, other); ClockBase(b[0], b[1], b[2], b[3], b[4]) == c.base
  {
  }

  lemma ClockExtensionBack(c: ClockRef, other: byte)
    requires c.extension < EXTENSION_LIMIT
    ensures var b := EncodeClock(c, other); ClockExtension(b[4], b[5]) == c.extension
  {
  }

  lemma ClockRoundTrip(c: ClockRef, other: byte)
    requires ValidClock(c)
    ensures ParseClock(EncodeClock(c, other)) == c
  {
    hide EncodeClock, ClockBase, ClockExtension;
    ClockBaseBack(c, other);
    ClockExtensionBack(c, other);
  }

  // ----- ESCR and SCR -----

  function EscrBase(s0: byte, s1: byte, s2: byte, s3: byte, s4: byte): bv64 {
    ((s0 & 0x38) as bv64 << 27) | ((s0 & 0x03) as bv64 << 28) | (s1 as bv64 << 20)
    | ((s2 & 0xf8) as bv64 << 12) | ((s2 & 0x03) as bv64 << 13) | (s3 as bv64 << 5) | ((s4 & 0xf8) as bv64 >> 3)
  }

  function EscrExtension(s4: byte, s5: byte): bv16 {
    ((s4 & 0x03) as bv16 << 7) | ((s5 & 0xfe) as bv16 >> 1)
  }

  /** The layout of ESCR in a PES header and of SCR in a pack header. */
  function ParseEscr(s: seq<byte>): ClockRef
    requires |s| == 6
  {
    ClockRef(EscrBase(s[0], s[1], s[2], s[3], s[4]), EscrExtension(s[4], s[5]))
  }

  /** Six bytes with their marker bits set; `other` supplies the two leading bits. */
  function EncodeEscr(c: ClockRef, other: byte): (s: seq<byte>)
    ensures |s| == 6
  {
    [(other & 0xc0) | (((c.base >> 30) & 7) as byte << 3) | 0x04 | (((c.base >> 28) & 3) as byte),
     ((c.base >> 20) & 0xff) as byte,
     (((c.base >> 15) & 0x1f) as byte << 3) | 0x04 | (((c.base >> 13) & 3) as byte),
     ((c.base >> 5) & 0xff) as byte,
     ((c.base & 0x1f) as byte << 3) | 0x04 | (((c.extension >> 7) & 3) as byte),
     ((c.extension & 0x7f) as byte << 1) | 0x01]
  }

  lemma EscrBaseBack(c: ClockRef, other: byte)
    requires c.base < BASE_LIMIT
    ensures var s := EncodeEscr(c, other); EscrBase(s[0], s[1], s[2], s[3], s[4]) == c.base
  {
  }

  lemma EscrExtensionBack(c: ClockRef, other: byte)
    requires c.extension < EXTENSION_LIMIT
    ensures var s := EncodeEscr(c, other); EscrExtension(s[4], s[5]) == c.extension
  {
  }

  lemma EscrRoundTrip(c: ClockRef, other: byte)
    requires ValidClock(c)
    ensures ParseEscr(EncodeEscr(c, other)) == c
  {
    hide EncodeEscr, EscrBase, EscrExtension;
    EscrBaseBack(c, other);
    EscrExtensionBack(c, other);
  }

  lemma EscrBaseFits(s0: byte, s1: byte, s2: byte, s3: byte, s4: byte)
    ensures EscrBase(s0, s1, s2, s3, s4) < BASE_LIMIT
  {
  }

  lemma EscrExtensionFits(s4: byte, s5: byte)
    ensures EscrExtension(s4, s5) < EXTENSION_LIMIT
  {
  }

  /** The assertions of `ClockRef::from_parts` hold whatever the six bytes are. */
  lemma EscrNeverPanics(s: seq<byte>)
    requires |s| == 6
    ensures ValidClock(ParseEscr(s))
  {
    hide EscrBase, EscrExtension;
    EscrBaseFits(s[0], s[1], s[2], s[3], s[4]);
    EscrExtensionFits(s[4], s[5]);
  }
}
