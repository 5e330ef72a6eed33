/** Adaptation fields and their extension (src/packet.rs `AdaptationField`,
    `AdaptationFieldExtension`): every getter recomputes the offset of its field from the flags;
    together they read the field from front to back. */
module AdaptationFields {
  import opened Bytes
  import opened Clocks
  import opened Layouts
  import opened Packets

  datatype FieldError = FieldNotPresent | NotEnoughData | SpliceTimestampError(error: TimestampError)

  type Found<T> = Result<T, FieldError>

  /** A getter's result before its bytes are decoded. */
  function Raw(item: Item): Found<seq<byte>> {
    match item
    case Absent => Err(FieldNotPresent)
    case Short => Err(NotEnoughData)
    case Got(bytes) => Ok(bytes)
  }

  // ----- adaptation field -----

  predicate Discontinuity(b: seq<byte>) requires b != [] { b[0] & 0x80 != 0 }

  predicate RandomAccess(b: seq<byte>) requires b != [] { b[0] & 0x40 != 0 }

  function Priority(b: seq<byte>): byte requires b != [] { (b[0] & 0x20) >> 5 }

  predicate PcrFlag(b: seq<byte>) requires b != [] { b[0] & 0x10 != 0 }

  predicate OpcrFlag(b: seq<byte>) requires b != [] { b[0] & 0x08 != 0 }

  predicate SplicingPointFlag(b: seq<byte>) requires b != [] { b[0] & 0x04 != 0 }

  predicate PrivateDataFlag(b: seq<byte>) requires b != [] { b[0] & 0x02 != 0 }

  predicate ExtensionFlag(b: seq<byte>) requires b != [] { b[0] & 0x01 != 0 }

  const PCR_SIZE := 6

  function PcrBytes(b: seq<byte>): (item: Item)
    requires b != []
    ensures item.Got? ==> |item.bytes| == PCR_SIZE
  {
    if PcrFlag(b) then Cut(b, 1, 1 + PCR_SIZE) else Absent
  }

  function OpcrOffset(b: seq<byte>): nat
    requires b != []
  {
    if PcrFlag(b) then 1 + PCR_SIZE else 1
  }

  function OpcrBytes(b: seq<byte>): (item: Item)
    requires b != []
    ensures item.Got? ==> |item.bytes| == PCR_SIZE
  {
    var off := OpcrOffset(b);
    if OpcrFlag(b) then Cut(b, off, off + PCR_SIZE) else Absent
  }

  function SpliceCountdownOffset(b: seq<byte>): nat
    requires b != []
  {
    OpcrOffset(b) + if OpcrFlag(b) then PCR_SIZE else 0
  }

  function SpliceCountdownBytes(b: seq<byte>): (item: Item)
    requires b != []
    ensures item.Got? ==> |item.bytes| == 1
  {
    var off := SpliceCountdownOffset(b);
    if SplicingPointFlag(b) then Cut(b, off, off + 1) else Absent
  }

  function PrivateDataOffset(b: seq<byte>): nat
    requires b != []
  {
    SpliceCountdownOffset(b) + if SplicingPointFlag(b) then 1 else 0
  }

  function PrivateDataBytes(b: seq<byte>): Item
    requires b != []
  {
    var off := PrivateDataOffset(b);
    if !PrivateDataFlag(b) then Absent
    else if off + 1 > |b| then Short
    else Cut(b, off + 1, off + 1 + b[off] as nat)
  }

  /** `None` where the source gives up because the length of the private data is missing. */
  function ExtensionOffset(b: seq<byte>): Option<nat>
    requires b != []
  {
    var off := PrivateDataOffset(b);
    if !PrivateDataFlag(b) then Some(off)
    else if off + 1 > |b| then None
    else Some(off + b[off] as nat + 1)
  }

  function ExtensionBytes(b: seq<byte>): Item
    requires b != []
  {
    if !ExtensionFlag(b) then Absent
    else match ExtensionOffset(b)
      case None => Short
      case Some(off) => if off + 1 > |b| then Short else Cut(b, off + 1, off + 1 + b[off] as nat)
  }

  function AsClock(item: Item): Found<ClockRef>
    requires item.Got? ==> |item.bytes| == PCR_SIZE
  {
    match Raw(item) case Err(e) => Err(e) case Ok(bytes) => Ok(ParseClock(bytes))
  }

  function Pcr(b: seq<byte>): Found<ClockRef> requires b != [] { AsClock(PcrBytes(b)) }

  function Opcr(b: seq<byte>): Found<ClockRef> requires b != [] { AsClock(OpcrBytes(b)) }

  /** The value of a byte as `i8`. */
  function Signed(b: byte): int {
    if b as nat < 128 then b as nat else b as nat - 256
  }

  function SpliceCountdown(b: seq<byte>): Found<int>
    requires b != []
  {
    match Raw(SpliceCountdownBytes(b)) case Err(e) => Err(e) case Ok(bytes) => Ok(Signed(bytes[0]))
  }

  function PrivateData(b: seq<byte>): Found<seq<byte>> requires b != [] { Raw(PrivateDataBytes(b)) }

  /** The bytes of an `AdaptationFieldExtension`, which cannot be empty. */
  function ExtensionOf(b: seq<byte>): (e: Found<seq<byte>>)
    requires b != []
    ensures e.Ok? ==> e.value != []
  {
    match Raw(ExtensionBytes(b))
    case Err(e) => Err(e)
    case Ok(bytes) => if bytes == [] then Err(NotEnoughData) else Ok(bytes)
  }

  /** The layout as the standard tabulates it, after the flags. */
  function Slots(b: seq<byte>): seq<Slot>
    requires b != []
  {
    [Slot(PcrFlag(b), Fixed(PCR_SIZE)), Slot(OpcrFlag(b), Fixed(PCR_SIZE)), Slot(SplicingPointFlag(b), Fixed(1)),
     Slot(PrivateDataFlag(b), Counted), Slot(ExtensionFlag(b), Counted)]
  }

  lemma ClockGetters(b: seq<byte>)
    requires b != []
    ensures Walk(Slots(b), b[1..])[0] == PcrBytes(b) && Walk(Slots(b), b[1..])[1] == OpcrBytes(b)
    ensures StandsAt(b, SpliceCountdownOffset(b), Rest(Slots(b), b[1..], 2))
  {
    hide Take, After, Rest, Walk, Cut, StandsAt, PcrFlag, OpcrFlag;
    WalkStarts(Slots(b), b, 1);
    WalkFixed(Slots(b), b, 1, 0, 1);
    WalkFixed(Slots(b), b, 1, 1, OpcrOffset(b));
  }

  lemma PrivateGetters(b: seq<byte>)
    requires b != []
    ensures Walk(Slots(b), b[1..])[2] == SpliceCountdownBytes(b) && Walk(Slots(b), b[1..])[3] == PrivateDataBytes(b)
    ensures ExtensionOffset(b).Some? ==> StandsAt(b, ExtensionOffset(b).value, Rest(Slots(b), b[1..], 4))
    ensures ExtensionOffset(b).None? ==> Rest(Slots(b), b[1..], 4).None?
  {
    hide Take, After, Rest, Walk, Cut, StandsAt, SpliceCountdownOffset, SplicingPointFlag, PrivateDataFlag;
    ClockGetters(b);
    WalkFixed(Slots(b), b, 1, 2, SpliceCountdownOffset(b));
    WalkCounted(Slots(b), b, 1, 3, PrivateDataOffset(b));
  }

  lemma ExtensionGetter(b: seq<byte>)
    requires b != []
    ensures Walk(Slots(b), b[1..])[4] == ExtensionBytes(b)
  {
    hide Take, After, Rest, Walk, Cut, StandsAt, ExtensionOffset, ExtensionFlag;
    PrivateGetters(b);
    if ExtensionOffset(b).Some? {
      WalkCounted(Slots(b), b, 1, 4, ExtensionOffset(b).value);
    } else {
      WalkLost(Slots(b), b[1..], 4);
    }
  }

  /** For every buffer, the getters with their offset chain find what one sequential reading
      finds: also when the buffer is cut short, or a length byte points past its end. */
  lemma GettersAreSequential(b: seq<byte>)
    requires b != []
    ensures Walk(Slots(b), b[1..])
         == [PcrBytes(b), OpcrBytes(b), SpliceCountdownBytes(b), PrivateDataBytes(b), ExtensionBytes(b)]
  {
    hide Walk, PcrBytes, OpcrBytes, SpliceCountdownBytes, PrivateDataBytes, ExtensionBytes;
    ClockGetters(b);
    PrivateGetters(b);
    ExtensionGetter(b);
  }

  // ----- a multiplexer's adaptation field -----

  datatype Field = Field(
    discontinuity: bool, randomAccess: bool, priority: bool,
    pcr: Option<ClockRef>, opcr: Option<ClockRef>, spliceCountdown: Option<int>,
    privateData: Option<seq<byte>>, extension: Option<seq<byte>>)

  ghost predicate ValidField(f: Field) {
    && (f.pcr.Some? ==> ValidClock(f.pcr.value))
    && (f.opcr.Some? ==> ValidClock(f.opcr.value))
    && (f.spliceCountdown.Some? ==> -128 <= f.spliceCountdown.value < 128)
    && (f.privateData.Some? ==> |f.privateData.value| < 256)
    && (f.extension.Some? ==> 1 <= |f.extension.value| < 256)
  }

  function ClockItem(c: Option<ClockRef>, other: byte): (item: Item)
    ensures item.Got? <==> c.Some?
    ensures item.Got? ==> |item.bytes| == PCR_SIZE
  {
    match c case None => Absent case Some(c) => Got(EncodeClock(c, other))
  }

  function Unsigned(v: int): byte
    requires -128 <= v < 128
  {
    ByteOf(if v < 0 then v + 256 else v)
  }

  function Items(f: Field, other: byte): (items: seq<Item>)
    requires ValidField(f)
    ensures |items| == 5
  {
    [ClockItem(f.pcr, other), ClockItem(f.opcr, other),
     if f.spliceCountdown.Some? then Got([Unsigned(f.spliceCountdown.value)]) else Absent,
     Present(f.privateData), Present(f.extension)]
  }

  function FieldFlags(f: Field): byte {
    Flags(f.discontinuity, f.randomAccess, f.priority, f.pcr.Some?, f.opcr.Some?, f.spliceCountdown.Some?,
          f.privateData.Some?, f.extension.Some?)
  }

  lemma ItemsFit(f: Field, other: byte)
    requires ValidField(f)
    ensures AllFit(Slots([FieldFlags(f)]), Items(f, other))
  {
    hide Flags;
    FlagsRead(f.discontinuity, f.randomAccess, f.priority, f.pcr.Some?, f.opcr.Some?, f.spliceCountdown.Some?,
              f.privateData.Some?, f.extension.Some?);
  }

  /** Reserved bits come from `other`; stuffing may follow. */
  function Encode(f: Field, other: byte, stuffing: seq<byte>): (b: seq<byte>)
    requires ValidField(f)
    ensures b != [] && b[0] == FieldFlags(f)
  {
    ItemsFit(f, other);
    [FieldFlags(f)] + Write(Slots([FieldFlags(f)]), Items(f, other)) + stuffing
  }

  /** The value of an optional field as its getter returns it. */
  function Returned<T>(o: Option<T>): Found<T> {
    match o case None => Err(FieldNotPresent) case Some(v) => Ok(v)
  }

  lemma SlotsOfFlags(b: seq<byte>, c: seq<byte>)
    requires b != [] && c != [] && b[0] == c[0]
    ensures Slots(b) == Slots(c)
  {
  }

  /** What was written is what the getters find, before decoding. */
  lemma ItemsBack(f: Field, other: byte, stuffing: seq<byte>)
    requires ValidField(f)
    ensures var b := Encode(f, other, stuffing);
            [PcrBytes(b), OpcrBytes(b), SpliceCountdownBytes(b), PrivateDataBytes(b), ExtensionBytes(b)] == Items(f, other)
  {
    hide Flags, PcrBytes, OpcrBytes, SpliceCountdownBytes, PrivateDataBytes, ExtensionBytes, Walk, Rest, Items;
    var b := Encode(f, other, stuffing);
    var slots := Slots([FieldFlags(f)]);
    SlotsOfFlags(b, [FieldFlags(f)]);
    ItemsFit(f, other);
    WalkWritten(slots, Items(f, other), stuffing);
    assert b[1..] == Write(slots, Items(f, other)) + stuffing;
    GettersAreSequential(b);
  }

  lemma SignedBack(v: int)
    requires -128 <= v < 128
    ensures Signed(Unsigned(v)) == v
  {
  }

  lemma FlagsAndClocksBack(f: Field, other: byte, stuffing: seq<byte>)
    requires ValidField(f)
    ensures var b := Encode(f, other, stuffing);
            && (Discontinuity(b) <==> f.discontinuity) && (RandomAccess(b) <==> f.randomAccess)
            && Priority(b) == (if f.priority then 1 else 0)
            && Pcr(b) == Returned(f.pcr) && Opcr(b) == Returned(f.opcr)
  {
    hide Flags, PcrBytes, OpcrBytes, SpliceCountdownBytes, PrivateDataBytes, ExtensionBytes, Encode, EncodeClock,
      ParseClock, Unsigned;
    var b := Encode(f, other, stuffing);
    FlagsRead(f.discontinuity, f.randomAccess, f.priority, f.pcr.Some?, f.opcr.Some?, f.spliceCountdown.Some?,
              f.privateData.Some?, f.extension.Some?);
    ItemsBack(f, other, stuffing);
    assert PcrBytes(b) == Items(f, other)[0] && OpcrBytes(b) == Items(f, other)[1];
    if f.pcr.Some? { ClockRoundTrip(f.pcr.value, other); }
    if f.opcr.Some? { ClockRoundTrip(f.opcr.value, other); }
  }

  lemma BytesBack(f: Field, other: byte, stuffing: seq<byte>)
    requires ValidField(f)
    ensures var b := Encode(f, other, stuffing);
            && SpliceCountdown(b) == Returned(f.spliceCountdown)
            && PrivateData(b) == Returned(f.privateData) && ExtensionOf(b) == Returned(f.extension)
  {
    hide Flags, PcrBytes, OpcrBytes, SpliceCountdownBytes, PrivateDataBytes, ExtensionBytes, Encode, ClockItem,
      Signed, Unsigned;
    var b := Encode(f, other, stuffing);
    ItemsBack(f, other, stuffing);
    var items := Items(f, other);
    assert SpliceCountdownBytes(b) == items[2] && PrivateDataBytes(b) == items[3] && ExtensionBytes(b) == items[4];
    if f.spliceCountdown.Some? { SignedBack(f.spliceCountdown.value); }
  }

  /** Encoding then decoding is the identity on every field, for every combination of fields,
      whatever the reserved bits and the stuffing. */
  lemma FieldRoundTrip(f: Field, other: byte, stuffing: seq<byte>)
    requires ValidField(f)
    ensures var b := Encode(f, other, stuffing);
            && (Discontinuity(b) <==> f.discontinuity) && (RandomAccess(b) <==> f.randomAccess)
            && Priority(b) == (if f.priority then 1 else 0)
            && Pcr(b) == Returned(f.pcr) && Opcr(b) == Returned(f.opcr)
            && SpliceCountdown(b) == Returned(f.spliceCountdown)
            && PrivateData(b) == Returned(f.privateData) && ExtensionOf(b) == Returned(f.extension)
  {
    hide Encode, Discontinuity, RandomAccess, Priority, Pcr, Opcr, SpliceCountdown, PrivateData, ExtensionOf, ValidField;
    FlagsAndClocksBack(f, other, stuffing);
    BytesBack(f, other, stuffing);
  }

  /** The constructor's assertion never fails: a packet's adaptation field is not empty. */
  lemma FieldNeverEmpty(p: Packet)
    ensures AdaptationFieldOf(p).Ok? && AdaptationFieldOf(p).value.Some? ==> AdaptationFieldOf(p).value.value != []
  {
  }

  /** A packet with both an adaptation field and a payload. */
  function CarryBoth(b1: byte, b2: byte, b3: byte, field: seq<byte>, data: seq<byte>): Packet
    requires field != [] && data != [] && |field| + |data| == 183
  {
    [SYNC_BYTE, b1, b2, 0x30 | (b3 & 0x0f), ByteOf(|field|)] + field + data
  }

  /** Both are read back. */
  lemma CarryBothBack(b1: byte, b2: byte, b3: byte, field: seq<byte>, data: seq<byte>)
    requires field != [] && data != [] && |field| + |data| == 183
    ensures AdaptationFieldOf(CarryBoth(b1, b2, b3, field, data)) == Ok(Some(field))
    ensures PayloadOf(CarryBoth(b1, b2, b3, field, data)) == Ok(Some(data))
  {
    CarryFlags(b3);
    var p := CarryBoth(b1, b2, b3, field, data);
    assert p[5..5 + |field|] == field;
    assert p[5 + |field|..] == data;
  }

  // ----- adaptation field extension -----

  datatype Splice = Splice(spliceType: byte, dtsNextAu: bv64)

  predicate LtwFlag(b: seq<byte>) requires b != [] { b[0] & 0x80 != 0 }

  predicate PiecewiseRateFlag(b: seq<byte>) requires b != [] { b[0] & 0x40 != 0 }

  predicate SeamlessSpliceFlag(b: seq<byte>) requires b != [] { b[0] & 0x20 != 0 }

  function LtwBytes(b: seq<byte>): (item: Item)
    requires b != []
    ensures item.Got? ==> |item.bytes| == 2
  {
    if LtwFlag(b) then Cut(b, 1, 3) else Absent
  }

  function PiecewiseRateOffset(b: seq<byte>): nat
    requires b != []
  {
    1 + if LtwFlag(b) then 2 else 0
  }

  function PiecewiseRateBytes(b: seq<byte>): (item: Item)
    requires b != []
    ensures item.Got? ==> |item.bytes| == 3
  {
    var off := PiecewiseRateOffset(b);
    if PiecewiseRateFlag(b) then Cut(b, off, off + 3) else Absent
  }

  function SeamlessSpliceOffset(b: seq<byte>): nat
    requires b != []
  {
    PiecewiseRateOffset(b) + if PiecewiseRateFlag(b) then 3 else 0
  }

  function SeamlessSpliceBytes(b: seq<byte>): (item: Item)
    requires b != []
    ensures item.Got? ==> |item.bytes| == 5
  {
    var off := SeamlessSpliceOffset(b);
    if SeamlessSpliceFlag(b) then Cut(b, off, off + 5) else Absent
  }

  function Number15(hi: byte, lo: byte): bv16 {
    ((hi & 0x7f) as bv16 << 8) | (lo as bv16)
  }

  function Number22(a: byte, b: byte, c: byte): bv32 {
    ((a & 0x3f) as bv32 << 16) | (b as bv32 << 8) | (c as bv32)
  }

  function LtwOffset(b: seq<byte>): Found<Option<bv16>>
    requires b != []
  {
    match Raw(LtwBytes(b))
    case Err(e) => Err(e)
    case Ok(d) => Ok(if d[0] & 0x80 != 0 then Some(Number15(d[0], d[1])) else None)
  }

  function PiecewiseRate(b: seq<byte>): Found<bv32>
    requires b != []
  {
    match Raw(PiecewiseRateBytes(b)) case Err(e) => Err(e) case Ok(d) => Ok(Number22(d[0], d[1], d[2]))
  }

  function SeamlessSplice(b: seq<byte>): Found<Splice>
    requires b != []
  {
    match Raw(SeamlessSpliceBytes(b))
    case Err(e) => Err(e)
    case Ok(d) =>
      match ParseStamp(d)
      case Err(e) => Err(SpliceTimestampError(e))
      case Ok(t) => Ok(Splice(d[0] >> 4, t))
  }

  function ExtensionSlots(b: seq<byte>): seq<Slot>
    requires b != []
  {
    [Slot(LtwFlag(b), Fixed(2)), Slot(PiecewiseRateFlag(b), Fixed(3)), Slot(SeamlessSpliceFlag(b), Fixed(5))]
  }

  /** The same agreement for the extension. */
  lemma ExtensionGettersAreSequential(b: seq<byte>)
    requires b != []
    ensures Walk(ExtensionSlots(b), b[1..]) == [LtwBytes(b), PiecewiseRateBytes(b), SeamlessSpliceBytes(b)]
  {
    hide Take, After, Rest, Walk, Cut, StandsAt, LtwFlag, PiecewiseRateFlag, SeamlessSpliceFlag;
    WalkStarts(ExtensionSlots(b), b, 1);
    WalkFixed(ExtensionSlots(b), b, 1, 0, 1);
    WalkFixed(ExtensionSlots(b), b, 1, 1, PiecewiseRateOffset(b));
    WalkFixed(ExtensionSlots(b), b, 1, 2, SeamlessSpliceOffset(b));
  }

  /** An extension: the legal time window offset may be present and yet not valid. */
  datatype Extension = Extension(ltw: Option<Option<bv16>>, rate: Option<bv32>, splice: Option<Splice>)

  ghost predicate ValidExtension(x: Extension) {
    && (x.ltw.Some? && x.ltw.value.Some? ==> x.ltw.value.value < 0x8000)
    && (x.rate.Some? ==> x.rate.value < 0x40_0000)
    && (x.splice.Some? ==> x.splice.value.spliceType < 16 && x.splice.value.dtsNextAu < TIMESTAMP_LIMIT)
  }

  function EncodeLtw(ltw: Option<bv16>, other: byte): (d: seq<byte>)
    ensures |d| == 2
  {
    match ltw
    case None => [other & 0x7f, other]
    case Some(v) => [0x80 | (((v >> 8) & 0x7f) as byte), (v & 0xff) as byte]
  }

  function EncodeRate(v: bv32, other: byte): (d: seq<byte>)
    ensures |d| == 3
  {
    [(other & 0xc0) | (((v >> 16) & 0x3f) as byte), ((v >> 8) & 0xff) as byte, (v & 0xff) as byte]
  }

  function ExtensionItems(x: Extension, other: byte): (items: seq<Item>)
    ensures |items| == 3
  {
    [if x.ltw.Some? then Got(EncodeLtw(x.ltw.value, other)) else Absent,
     if x.rate.Some? then Got(EncodeRate(x.rate.value, other)) else Absent,
     if x.splice.Some? then Got(EncodeStamp(x.splice.value.spliceType, x.splice.value.dtsNextAu)) else Absent]
  }

  function ExtensionFlags(x: Extension, other: byte): byte {
    Under(Flags(x.ltw.Some?, x.rate.Some?, x.splice.Some?, false, false, false, false, false), 0xe0, other)
  }

  function EncodeExtension(x: Extension, other: byte, reserved: seq<byte>): (b: seq<byte>)
    ensures b != [] && b[0] == ExtensionFlags(x, other)
  {
    ExtensionItemsFit(x, other);
    [ExtensionFlags(x, other)] + Write(ExtensionSlots([ExtensionFlags(x, other)]), ExtensionItems(x, other)) + reserved
  }

  lemma ExtensionFlagsRead(x: Extension, other: byte)
    ensures var b := ExtensionFlags(x, other);
            && (b & 0x80 != 0 <==> x.ltw.Some?) && (b & 0x40 != 0 <==> x.rate.Some?) && (b & 0x20 != 0 <==> x.splice.Some?)
  {
  }

  lemma ExtensionItemsFit(x: Extension, other: byte)
    ensures AllFit(ExtensionSlots([ExtensionFlags(x, other)]), ExtensionItems(x, other))
  {
    hide ExtensionFlags;
    ExtensionFlagsRead(x, other);
  }

  lemma LtwBack(ltw: Option<bv16>, other: byte)
    requires ltw.Some? ==> ltw.value < 0x8000
    ensures var d := EncodeLtw(ltw, other);
            (if d[0] & 0x80 != 0 then Some(Number15(d[0], d[1])) else None) == ltw
  {
  }

  lemma RateBack(v: bv32, other: byte)
    requires v < 0x40_0000
    ensures var d := EncodeRate(v, other); Number22(d[0], d[1], d[2]) == v
  {
  }

  lemma ExtensionItemsBack(x: Extension, other: byte, reserved: seq<byte>)
    ensures var b := EncodeExtension(x, other, reserved);
            [LtwBytes(b), PiecewiseRateBytes(b), SeamlessSpliceBytes(b)] == ExtensionItems(x, other)
  {
    hide ExtensionFlags, LtwBytes, PiecewiseRateBytes, SeamlessSpliceBytes, Walk, Rest, ExtensionItems;
    var b := EncodeExtension(x, other, reserved);
    var slots := ExtensionSlots([ExtensionFlags(x, other)]);
    assert ExtensionSlots(b) == slots;
    ExtensionItemsFit(x, other);
    WalkWritten(slots, ExtensionItems(x, other), reserved);
    assert b[1..] == Write(slots, ExtensionItems(x, other)) + reserved;
    ExtensionGettersAreSequential(b);
  }

  /** Encoding then decoding an extension is the identity. */
  lemma ExtensionRoundTrip(x: Extension, other: byte, reserved: seq<byte>)
    requires ValidExtension(x)
    ensures var b := EncodeExtension(x, other, reserved);
            LtwOffset(b) == Returned(x.ltw) && PiecewiseRate(b) == Returned(x.rate) && SeamlessSplice(b) == Returned(x.splice)
  {
    hide EncodeExtension, LtwBytes, PiecewiseRateBytes, SeamlessSpliceBytes, EncodeLtw, EncodeRate, EncodeStamp, ParseStamp,
      Number15, Number22;
    var b := EncodeExtension(x, other, reserved);
    ExtensionItemsBack(x, other, reserved);
    var items := ExtensionItems(x, other);
    assert LtwBytes(b) == items[0] && PiecewiseRateBytes(b) == items[1] && SeamlessSpliceBytes(b) == items[2];
    if x.ltw.Some? { LtwBack(x.ltw.value, other); }
    if x.rate.Some? { RateBack(x.rate.value, other); }
    if x.splice.Some? {
      StampRoundTrip(x.splice.value.spliceType, x.splice.value.dtsNextAu);
      StampPrefix(x.splice.value.spliceType, x.splice.value.dtsNextAu);
    }
  }

  // ----- refusals -----

  /** A field whose flag is clear is not present; one whose bytes are not all there lacks data;
      so does an extension of no bytes. */
  lemma FieldsRefused(b: seq<byte>)
    requires b != []
    ensures b[0] & 0x10 == 0 ==> Pcr(b) == Err(FieldNotPresent)
    ensures b[0] & 0x10 != 0 && |b| < 7 ==> Pcr(b) == Err(NotEnoughData)
    ensures b[0] & 0x08 == 0 ==> Opcr(b) == Err(FieldNotPresent)
    ensures b[0] & 0x04 == 0 ==> SpliceCountdown(b) == Err(FieldNotPresent)
    ensures b[0] & 0x02 == 0 ==> PrivateData(b) == Err(FieldNotPresent)
    ensures b[0] & 0x01 == 0 ==> ExtensionOf(b) == Err(FieldNotPresent)
    ensures OpcrBytes(b).Short? ==> Opcr(b) == Err(NotEnoughData)
    ensures SpliceCountdownBytes(b).Short? ==> SpliceCountdown(b) == Err(NotEnoughData)
    ensures PrivateDataBytes(b).Short? ==> PrivateData(b) == Err(NotEnoughData)
    ensures ExtensionBytes(b).Short? || ExtensionBytes(b) == Got([]) ==> ExtensionOf(b) == Err(NotEnoughData)
  {
    hide ParseClock, OpcrOffset, SpliceCountdownOffset, PrivateDataOffset, ExtensionOffset;
  }

  /** The same of the extension, whose splice also passes on what is wrong with its time stamp. */
  lemma ExtensionFieldsRefused(b: seq<byte>)
    requires b != []
    ensures b[0] & 0x80 == 0 ==> LtwOffset(b) == Err(FieldNotPresent)
    ensures b[0] & 0x40 == 0 ==> PiecewiseRate(b) == Err(FieldNotPresent)
    ensures b[0] & 0x20 == 0 ==> SeamlessSplice(b) == Err(FieldNotPresent)
    ensures LtwBytes(b).Short? ==> LtwOffset(b) == Err(NotEnoughData)
    ensures PiecewiseRateBytes(b).Short? ==> PiecewiseRate(b) == Err(NotEnoughData)
    ensures SeamlessSpliceBytes(b).Short? ==> SeamlessSplice(b) == Err(NotEnoughData)
    ensures SeamlessSpliceBytes(b).Got? && ParseStamp(SeamlessSpliceBytes(b).bytes).Err? ==>
              SeamlessSplice(b) == Err(SpliceTimestampError(ParseStamp(SeamlessSpliceBytes(b).bytes).error))
  {
    hide ParseStamp, Number15, Number22, PiecewiseRateOffset, SeamlessSpliceOffset;
  }
}
