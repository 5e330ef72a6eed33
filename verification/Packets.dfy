/** Transport stream packets (src/packet.rs): fixed header fields, adaptation field and payload bounds. */
module Packets {
  import opened Bytes

  const SIZE := 188
  const FIXED_HEADER_SIZE := 4
  const ADAPTATION_FIELD_OFFSET := 5
  const SYNC_BYTE: byte := 0x47

  type Packet = p: seq<byte> | |p| == SIZE && p[0] == SYNC_BYTE
    witness [0x47] + seq(187, _ => 0)

  datatype PacketError =
    | InvalidAdaptationFieldLength(length: nat)
    | PayloadOutOfBounds(offset: nat)

  predicate TransportError(p: Packet) { p[1] & 0x80 != 0 }

  predicate UnitStart(p: Packet) { p[1] & 0x40 != 0 }

  function PidOf(p: Packet): Pid { Pid13(p[1], p[2]) }

  predicate Scrambled(p: Packet) { p[3] & 0xc0 != 0 }

  predicate HasAdaptationField(p: Packet) { p[3] & 0x20 != 0 }

  predicate HasPayload(p: Packet) { p[3] & 0x10 != 0 }

  /** The continuity counter, 0 to 15. */
  function Counter(p: Packet): (c: nat)
    ensures c < 16
  {
    (p[3] & 0x0f) as nat
  }

  function AdaptationFieldLength(p: Packet): nat { p[4] as nat }

  function ContentOffset(p: Packet): nat {
    if HasAdaptationField(p) then ADAPTATION_FIELD_OFFSET + AdaptationFieldLength(p) else FIXED_HEADER_SIZE
  }

  type Payload = Result<Option<seq<byte>>, PacketError>

  function PayloadOf(p: Packet): Payload {
    if !HasPayload(p) then Ok(None)
    else
      var offset := ContentOffset(p);
      if offset == |p| then Ok(None)
      else if offset > |p| then Err(PayloadOutOfBounds(offset))
      else Ok(Some(p[offset..]))
  }

  function AdaptationFieldOf(p: Packet): Result<Option<seq<byte>>, PacketError> {
    if !HasAdaptationField(p) then Ok(None)
    else
      var len := AdaptationFieldLength(p);
      if HasPayload(p) then
        if len > 182 || len == 0 then Err(InvalidAdaptationFieldLength(len))
        else Ok(Some(p[ADAPTATION_FIELD_OFFSET..ADAPTATION_FIELD_OFFSET + len]))
      else
        if len != SIZE - ADAPTATION_FIELD_OFFSET then Err(InvalidAdaptationFieldLength(len))
        else Ok(Some(p[ADAPTATION_FIELD_OFFSET..ADAPTATION_FIELD_OFFSET + len]))
  }

  /** When both exist, the adaptation field and the payload are exactly bytes 5 to 187;
      and both exist exactly when both flags are set with a length from 1 to 182. */
  lemma FieldThenPayload(p: Packet)
    ensures AdaptationFieldOf(p).Ok? && AdaptationFieldOf(p).value.Some? && PayloadOf(p).Ok? && PayloadOf(p).value.Some?
       <==> HasAdaptationField(p) && HasPayload(p) && 1 <= AdaptationFieldLength(p) <= 182
    ensures HasAdaptationField(p) && HasPayload(p) && 1 <= AdaptationFieldLength(p) <= 182 ==>
              AdaptationFieldOf(p).value.value + PayloadOf(p).value.value == p[ADAPTATION_FIELD_OFFSET..]
  {
    if HasAdaptationField(p) && HasPayload(p) && 1 <= AdaptationFieldLength(p) <= 182 {
      var stop := ADAPTATION_FIELD_OFFSET + AdaptationFieldLength(p);
      assert p[ADAPTATION_FIELD_OFFSET..stop] + p[stop..] == p[ADAPTATION_FIELD_OFFSET..];
    }
  }

  /** A payload is a non-empty tail of the packet, and which packets have none or a bad one. */
  lemma PayloadBounds(p: Packet)
    ensures PayloadOf(p).Ok? && PayloadOf(p).value.Some? ==>
              var d := PayloadOf(p).value.value; 1 <= |d| <= 184 && d == p[SIZE - |d|..]
    ensures PayloadOf(p) == Ok(None) <==> !HasPayload(p) || (HasAdaptationField(p) && AdaptationFieldLength(p) == 183)
    ensures PayloadOf(p).Err? <==> HasPayload(p) && HasAdaptationField(p) && AdaptationFieldLength(p) > 183
  {
  }

  // ----- a multiplexer's view -----

  /** A packet carrying `data`: the flags and PID of `b1` and `b2`, the counter of `b3`, and
      an adaptation field of stuffing bytes when the data does not fill the packet. */
  function Carry(b1: byte, b2: byte, b3: byte, data: seq<byte>): (p: Packet)
    requires 1 <= |data| <= 184
  {
    if |data| == 184 then
      [SYNC_BYTE, b1, b2, 0x10 | (b3 & 0x0f)] + data
    else
      [SYNC_BYTE, b1, b2, 0x30 | (b3 & 0x0f), ByteOf(183 - |data|)] + Stuffing(183 - |data|) + data
  }

  /** Adaptation field contents with no optional field: clear flags, then 0xff. */
  function Stuffing(n: nat): (s: seq<byte>)
    ensures |s| == n
  {
    if n == 0 then [] else [0x00] + Repeat(0xff, n - 1)
  }

  lemma CarryFlags(b3: byte)
    ensures (0x10 | (b3 & 0x0f)) & 0x20 == 0 && (0x10 | (b3 & 0x0f)) & 0x10 != 0 && (0x10 | (b3 & 0x0f)) & 0xc0 == 0
    ensures (0x30 | (b3 & 0x0f)) & 0x20 != 0 && (0x30 | (b3 & 0x0f)) & 0x10 != 0 && (0x30 | (b3 & 0x0f)) & 0xc0 == 0
    ensures (0x10 | (b3 & 0x0f)) & 0x0f == b3 & 0x0f && (0x30 | (b3 & 0x0f)) & 0x0f == b3 & 0x0f
  {
  }

  /** Every payload of 1 to 184 bytes fits a packet and is read back from it, with the other
      header fields. */
  lemma CarryRoundTrip(b1: byte, b2: byte, b3: byte, data: seq<byte>)
    requires 1 <= |data| <= 184
    ensures PayloadOf(Carry(b1, b2, b3, data)) == Ok(Some(data))
    ensures PidOf(Carry(b1, b2, b3, data)) == Pid13(b1, b2)
    ensures UnitStart(Carry(b1, b2, b3, data)) <==> b1 & 0x40 != 0
    ensures TransportError(Carry(b1, b2, b3, data)) <==> b1 & 0x80 != 0
    ensures !Scrambled(Carry(b1, b2, b3, data))
    ensures Counter(Carry(b1, b2, b3, data)) == (b3 & 0x0f) as nat
  {
    CarryFlags(b3);
  }

  // ----- the header, field by field -----

  function FlagBits(error: bool, start: bool, priority: bool): byte {
    (if error then 0x80 else 0) | (if start then 0x40 else 0) | (if priority then 0x20 else 0)
  }

  function ControlByte(scrambling: byte, field: bool, payload: bool, counter: byte): byte {
    (scrambling << 6) | (if field then 0x20 else 0) | (if payload then 0x10 else 0) | counter
  }

  /** The four header bytes of a packet. */
  function HeaderBytes(error: bool, start: bool, priority: bool, pid: Pid, scrambling: byte, field: bool, payload: bool, counter: nat): (h: seq<byte>)
    requires scrambling < 4 && counter < 16
    ensures |h| == 4
  {
    [0x47, Under(ByteOf(pid / 256), 0x1f, FlagBits(error, start, priority)), ByteOf(pid % 256),
     ControlByte(scrambling, field, payload, ByteOf(counter))]
  }

  lemma FlagsBack(hi: byte, error: bool, start: bool, priority: bool)
    ensures var v := Under(hi, 0x1f, FlagBits(error, start, priority)); (v & 0x80 != 0 <==> error) && (v & 0x40 != 0 <==> start)
  {
  }

  lemma ControlBack(scrambling: byte, field: bool, payload: bool, counter: byte)
    requires scrambling < 4 && counter < 16
    ensures var v := ControlByte(scrambling, field, payload, counter);
            && (v & 0xc0 != 0 <==> scrambling != 0) && (v & 0x20 != 0 <==> field) && (v & 0x10 != 0 <==> payload)
            && v & 0x0f == counter
  {
  }

  lemma SmallByte(n: nat)
    requires n < 16
    ensures ByteOf(n) < 16
  {
    assert ByteOf(n) as nat == n;
    SmallerByte(ByteOf(n));
  }

  lemma SmallerByte(b: byte)
    requires b as nat < 16
    ensures b < 16
  {
  }

  lemma AddressRead(p: Packet, error: bool, start: bool, priority: bool, pid: Pid)
    requires p[1] == Under(ByteOf(pid / 256), 0x1f, FlagBits(error, start, priority)) && p[2] == ByteOf(pid % 256)
    ensures (TransportError(p) <==> error) && (UnitStart(p) <==> start) && PidOf(p) == pid
  {
    hide Under, ByteOf, Pid13, FlagBits;
    FlagsBack(ByteOf(pid / 256), error, start, priority);
    Pid13Value(ByteOf(pid / 256), ByteOf(pid % 256), FlagBits(error, start, priority));
  }

  lemma ControlRead(p: Packet, scrambling: byte, field: bool, payload: bool, counter: nat)
    requires scrambling < 4 && counter < 16 && p[3] == ControlByte(scrambling, field, payload, ByteOf(counter))
    ensures (Scrambled(p) <==> scrambling != 0) && (HasAdaptationField(p) <==> field) && (HasPayload(p) <==> payload)
    ensures Counter(p) == counter
  {
    hide ByteOf, ControlByte;
    SmallByte(counter);
    ControlBack(scrambling, field, payload, ByteOf(counter));
  }

  /** Every header field is read back, in every combination: scrambled is any scrambling control
      but 0. */
  lemma HeaderRoundTrip(p: Packet, error: bool, start: bool, priority: bool, pid: Pid, scrambling: byte, field: bool, payload: bool, counter: nat)
    requires scrambling < 4 && counter < 16
    requires p[..4] == HeaderBytes(error, start, priority, pid, scrambling, field, payload, counter)
    ensures (TransportError(p) <==> error) && (UnitStart(p) <==> start) && PidOf(p) == pid && (Scrambled(p) <==> scrambling != 0)
    ensures (HasAdaptationField(p) <==> field) && (HasPayload(p) <==> payload) && Counter(p) == counter
  {
    hide *;
    HeaderParts(p, error, start, priority, pid, scrambling, field, payload, counter);
    AddressRead(p, error, start, priority, pid);
    ControlRead(p, scrambling, field, payload, counter);
  }

  lemma HeaderParts(p: Packet, error: bool, start: bool, priority: bool, pid: Pid, scrambling: byte, field: bool, payload: bool, counter: nat)
    requires scrambling < 4 && counter < 16
    requires p[..4] == HeaderBytes(error, start, priority, pid, scrambling, field, payload, counter)
    ensures p[1] == Under(ByteOf(pid / 256), 0x1f, FlagBits(error, start, priority)) && p[2] == ByteOf(pid % 256)
    ensures p[3] == ControlByte(scrambling, field, payload, ByteOf(counter))
  {
    hide Under, ByteOf, FlagBits, ControlByte;
    var h := p[..4];
    assert p[1] == h[1] && p[2] == h[2] && p[3] == h[3];
  }

  /** The adaptation field, for all flags and lengths: with a payload beside it, 1 to 182 bytes;
      without, as in a packet for a clock reference only, exactly the 183 that are left. */
  lemma AdaptationFieldExactly(p: Packet)
    ensures !HasAdaptationField(p) ==> AdaptationFieldOf(p) == Ok(None)
    ensures HasAdaptationField(p) && HasPayload(p) ==>
              AdaptationFieldOf(p) == if 1 <= p[4] as nat <= 182 then Ok(Some(p[5..5 + p[4] as nat]))
                                      else Err(InvalidAdaptationFieldLength(p[4] as nat))
    ensures HasAdaptationField(p) && !HasPayload(p) ==>
              AdaptationFieldOf(p) == if p[4] as nat == 183 then Ok(Some(p[5..])) else Err(InvalidAdaptationFieldLength(p[4] as nat))
  {
    assert p[5..188] == p[5..];
  }

  /** A packet that carries an adaptation field and no payload gives it back. */
  lemma FieldOnly(b1: byte, b2: byte, b3: byte, field: seq<byte>)
    requires |field| == 183
    ensures var p := [SYNC_BYTE, b1, b2, 0x20 | (b3 & 0x0f), 183] + field;
            |p| == SIZE && AdaptationFieldOf(p) == Ok(Some(field)) && PayloadOf(p) == Ok(None)
  {
    var p: Packet := [SYNC_BYTE, b1, b2, 0x20 | (b3 & 0x0f), 183] + field;
    FieldOnlyFlags(b3);
    assert p[5..188] == field;
  }

  lemma FieldOnlyFlags(b3: byte)
    ensures (0x20 | (b3 & 0x0f)) & 0x20 != 0 && (0x20 | (b3 & 0x0f)) & 0x10 == 0
  {
  }

  /** The payload that is out of bounds, and by how much. */
  lemma PayloadFaults(p: Packet)
    ensures PayloadOf(p).Err? ==> PayloadOf(p) == Err(PayloadOutOfBounds(5 + p[4] as nat))
  {
  }

  /** A packet is 188 bytes of which the first is 0x47. */
  lemma PacketShape(p: Packet)
    ensures |p| == 188 && p[0] == 0x47
  {
  }
}
