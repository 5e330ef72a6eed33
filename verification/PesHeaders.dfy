/** The optional PES header (src/pes.rs `PesParsedContents`): acceptance, the offset chain of
    its fields, and their values. */
module PesHeaders {
  import opened Bytes
  import opened Clocks
  import opened Layouts

  datatype PesError =
    | FieldNotPresent
    | PtsDtsFlagsInvalid
    | NotEnoughData(requested: nat, available: nat)
    | MarkerBitNotSet
    | InvalidCheckBits
    | HeaderLengthExceedsBuffer
    | HeaderDataLengthMismatch

  type Read<T> = Result<T, PesError>

  const FIXED_HEADER_SIZE := 3
  const TIMESTAMP_SIZE := 5
  const ESCR_SIZE := 6
  const ES_RATE_SIZE := 3
  const DSM_TRICK_MODE_SIZE := 1
  const ADDITIONAL_COPY_INFO_SIZE := 1
  const PREVIOUS_PES_PACKET_CRC_SIZE := 2

  /** A buffer that holds the three fixed bytes. */
  type Buffer = b: seq<byte> | FIXED_HEADER_SIZE <= |b| witness [0x80, 0x00, 0x00]

  function PtsDtsFlags(b: Buffer): (f: byte)
    ensures f < 4
  {
    b[1] >> 6
  }

  predicate EscrFlag(b: Buffer) { (b[1] >> 5) & 1 != 0 }

  predicate EsRateFlag(b: Buffer) { (b[1] >> 4) & 1 != 0 }

  predicate TrickModeFlag(b: Buffer) { (b[1] >> 3) & 1 != 0 }

  predicate CopyInfoFlag(b: Buffer) { (b[1] >> 2) & 1 != 0 }

  predicate CrcFlag(b: Buffer) { (b[1] >> 1) & 1 != 0 }

  predicate ExtensionFlag(b: Buffer) { b[1] & 1 != 0 }

  function HeaderEnd(b: Buffer): nat { FIXED_HEADER_SIZE + b[2] as nat }

  // ----- the offset chain -----

  function PtsDtsEnd(b: Buffer): nat {
    match PtsDtsFlags(b)
    case 0 => FIXED_HEADER_SIZE
    case 1 => FIXED_HEADER_SIZE
    case 2 => FIXED_HEADER_SIZE + TIMESTAMP_SIZE
    case _ => FIXED_HEADER_SIZE + TIMESTAMP_SIZE * 2
  }

  function EscrEnd(b: Buffer): nat { PtsDtsEnd(b) + if EscrFlag(b) then ESCR_SIZE else 0 }

  function EsRateEnd(b: Buffer): nat { EscrEnd(b) + if EsRateFlag(b) then ES_RATE_SIZE else 0 }

  function TrickModeEnd(b: Buffer): nat { EsRateEnd(b) + if TrickModeFlag(b) then DSM_TRICK_MODE_SIZE else 0 }

  function CopyInfoEnd(b: Buffer): nat { TrickModeEnd(b) + if CopyInfoFlag(b) then ADDITIONAL_COPY_INFO_SIZE else 0 }

  function CrcEnd(b: Buffer): nat { CopyInfoEnd(b) + if CrcFlag(b) then PREVIOUS_PES_PACKET_CRC_SIZE else 0 }

  /** `from_bytes`. */
  function FromBytes(b: seq<byte>): Read<Buffer> {
    if |b| < FIXED_HEADER_SIZE then Err(NotEnoughData(FIXED_HEADER_SIZE, |b|))
    else if b[0] >> 6 != 2 then Err(InvalidCheckBits)
    else if HeaderEnd(b) > |b| then Err(HeaderLengthExceedsBuffer)
    else if CrcEnd(b) > HeaderEnd(b) then Err(HeaderDataLengthMismatch)
    else Ok(b)
  }

  /** A buffer that was accepted: the only ones whose fields can be asked for. */
  type Parsed = b: seq<byte> | FromBytes(b).Ok? witness MINIMAL

  const MINIMAL: seq<byte> := [0x80, 0x00, 0x00]

  function HeaderSlice(b: Parsed, from: nat, to: nat): (r: Read<seq<byte>>)
    requires from <= to
    ensures r.Ok? ==> |r.value| == to - from
  {
    if to > HeaderEnd(b) then Err(NotEnoughData(to, HeaderEnd(b)))
    else if to > |b| then Err(NotEnoughData(to, |b|))
    else Ok(b[from..to])
  }

  // ----- the bytes of each field -----

  function PtsDtsBytes(b: Parsed): (r: Read<seq<byte>>)
    ensures r.Ok? ==> PtsDtsFlags(b) >= 2 && |r.value| == if PtsDtsFlags(b) == 3 then 10 else 5
  {
    var flags := PtsDtsFlags(b);
    if flags == 0 then Err(FieldNotPresent)
    else if flags == 1 then Err(PtsDtsFlagsInvalid)
    else HeaderSlice(b, FIXED_HEADER_SIZE, PtsDtsEnd(b))
  }

  function EscrBytes(b: Parsed): (r: Read<seq<byte>>)
    ensures r.Ok? ==> |r.value| == ESCR_SIZE
  {
    if EscrFlag(b) then HeaderSlice(b, PtsDtsEnd(b), PtsDtsEnd(b) + ESCR_SIZE) else Err(FieldNotPresent)
  }

  function EsRateBytes(b: Parsed): (r: Read<seq<byte>>)
    ensures r.Ok? ==> |r.value| == ES_RATE_SIZE
  {
    if EsRateFlag(b) then HeaderSlice(b, EscrEnd(b), EscrEnd(b) + ES_RATE_SIZE) else Err(FieldNotPresent)
  }

  function TrickModeBytes(b: Parsed): (r: Read<seq<byte>>)
    ensures r.Ok? ==> |r.value| == DSM_TRICK_MODE_SIZE
  {
    if TrickModeFlag(b) then HeaderSlice(b, EsRateEnd(b), EsRateEnd(b) + DSM_TRICK_MODE_SIZE) else Err(FieldNotPresent)
  }

  function CopyInfoBytes(b: Parsed): (r: Read<seq<byte>>)
    ensures r.Ok? ==> |r.value| == ADDITIONAL_COPY_INFO_SIZE
  {
    if CopyInfoFlag(b) then HeaderSlice(b, TrickModeEnd(b), TrickModeEnd(b) + ADDITIONAL_COPY_INFO_SIZE)
    else Err(FieldNotPresent)
  }

  function CrcBytes(b: Parsed): (r: Read<seq<byte>>)
    ensures r.Ok? ==> |r.value| == PREVIOUS_PES_PACKET_CRC_SIZE
  {
    if CrcFlag(b) then HeaderSlice(b, CopyInfoEnd(b), CopyInfoEnd(b) + PREVIOUS_PES_PACKET_CRC_SIZE)
    else Err(FieldNotPresent)
  }

  /** `pes_extension`: the bytes of a `PesExtension`, which cannot be empty. */
  function ExtensionBytes(b: Parsed): (r: Read<seq<byte>>)
    ensures r.Ok? ==> r.value != []
  {
    if !ExtensionFlag(b) then Err(FieldNotPresent)
    else match HeaderSlice(b, CrcEnd(b), HeaderEnd(b))
      case Err(e) => Err(e)
      case Ok(s) => if s == [] then Err(NotEnoughData(1, 0)) else Ok(s)
  }

  function PayloadOf(b: Parsed): seq<byte> { b[HeaderEnd(b)..] }

  // ----- agreement with one sequential reading -----

  /** The layout as the standard tabulates it, after the three fixed bytes. */
  function Slots(b: Buffer): (slots: seq<Slot>)
    ensures |slots| == 6
  {
    [Slot(PtsDtsFlags(b) >= 2, Fixed(if PtsDtsFlags(b) == 3 then TIMESTAMP_SIZE * 2 else TIMESTAMP_SIZE)),
     Slot(EscrFlag(b), Fixed(ESCR_SIZE)), Slot(EsRateFlag(b), Fixed(ES_RATE_SIZE)),
     Slot(TrickModeFlag(b), Fixed(DSM_TRICK_MODE_SIZE)), Slot(CopyInfoFlag(b), Fixed(ADDITIONAL_COPY_INFO_SIZE)),
     Slot(CrcFlag(b), Fixed(PREVIOUS_PES_PACKET_CRC_SIZE))]
  }

  /** The bytes that the header declares as its own. */
  function HeaderData(b: Buffer): seq<byte>
    requires HeaderEnd(b) <= |b|
  {
    b[..HeaderEnd(b)][FIXED_HEADER_SIZE..]
  }

  /** Where each field is, and where the reading stands after the last. */
  lemma ChainIsSequential(b: Buffer)
    requires HeaderEnd(b) <= |b|
    ensures var h, items := b[..HeaderEnd(b)], Walk(Slots(b), HeaderData(b));
            && items[0] == (if PtsDtsFlags(b) >= 2 then Cut(h, FIXED_HEADER_SIZE, PtsDtsEnd(b)) else Absent)
            && items[1] == (if EscrFlag(b) then Cut(h, PtsDtsEnd(b), PtsDtsEnd(b) + ESCR_SIZE) else Absent)
            && items[2] == (if EsRateFlag(b) then Cut(h, EscrEnd(b), EscrEnd(b) + ES_RATE_SIZE) else Absent)
            && items[3] == (if TrickModeFlag(b) then Cut(h, EsRateEnd(b), EsRateEnd(b) + 1) else Absent)
            && items[4] == (if CopyInfoFlag(b) then Cut(h, TrickModeEnd(b), TrickModeEnd(b) + 1) else Absent)
            && items[5] == (if CrcFlag(b) then Cut(h, CopyInfoEnd(b), CopyInfoEnd(b) + 2) else Absent)
            && StandsAt(h, CrcEnd(b), Rest(Slots(b), HeaderData(b), 6))
  {
    hide Take, After, Rest, Walk, Cut, StandsAt, HeaderEnd, PtsDtsFlags, EscrFlag, EsRateFlag, TrickModeFlag, CopyInfoFlag,
      CrcFlag;
    var h, slots := b[..HeaderEnd(b)], Slots(b);
    HeaderEndBound(b);
    WalkStarts(slots, h, FIXED_HEADER_SIZE);
    WalkFixed(slots, h, FIXED_HEADER_SIZE, 0, FIXED_HEADER_SIZE);
    WalkFixed(slots, h, FIXED_HEADER_SIZE, 1, PtsDtsEnd(b));
    WalkFixed(slots, h, FIXED_HEADER_SIZE, 2, EscrEnd(b));
    WalkFixed(slots, h, FIXED_HEADER_SIZE, 3, EsRateEnd(b));
    WalkFixed(slots, h, FIXED_HEADER_SIZE, 4, TrickModeEnd(b));
    WalkFixed(slots, h, FIXED_HEADER_SIZE, 5, CopyInfoEnd(b));
  }

  lemma HeaderEndBound(b: Buffer)
    ensures HeaderEnd(b) >= FIXED_HEADER_SIZE
  {
  }

  /** `from_bytes` accepts exactly the buffers with the check bits whose declared header is
      there and holds every field that the flags announce; and says which of these failed. */
  lemma AcceptedExactly(b: seq<byte>)
    ensures FromBytes(b).Ok? <==>
              && FIXED_HEADER_SIZE <= |b| && b[0] >> 6 == 2 && HeaderEnd(b) <= |b|
              && AllFit(Slots(b), Walk(Slots(b), HeaderData(b)))
    ensures FromBytes(b) == Err(HeaderDataLengthMismatch) <==>
              && FIXED_HEADER_SIZE <= |b| && b[0] >> 6 == 2 && HeaderEnd(b) <= |b|
              && Short in Walk(Slots(b), HeaderData(b))
  {
    hide Take, After, Rest, Walk, AllFit, Fits, Slots, CrcEnd;
    if FIXED_HEADER_SIZE <= |b| && HeaderEnd(b) <= |b| {
      ChainIsSequential(b);
      RestWhenAllFit(Slots(b), HeaderData(b));
      ShortUnlessFit(Slots(b), HeaderData(b));
    }
  }

  /** A getter's result as the sequential reading would put it. */
  function AsItem(r: Read<seq<byte>>): Item {
    match r
    case Ok(s) => Got(s)
    case Err(e) => if e == FieldNotPresent || e == PtsDtsFlagsInvalid then Absent else Short
  }

  lemma SliceIsCut(b: Parsed, from: nat, to: nat)
    requires from <= to
    ensures AsItem(HeaderSlice(b, from, to)) == Cut(b[..HeaderEnd(b)], from, to)
  {
  }

  /** Flags 01 are told from flags 00, although neither has a field. */
  lemma WhyNoStamps(b: Parsed)
    ensures (PtsDtsBytes(b) == Err(PtsDtsFlagsInvalid) <==> PtsDtsFlags(b) == 1)
         && (PtsDtsBytes(b) == Err(FieldNotPresent) <==> PtsDtsFlags(b) == 0)
  {
    hide PtsDtsFlags, HeaderEnd, PtsDtsEnd;
    PtsDtsOrder(b);
  }

  lemma GettersAreSequential(b: Parsed)
    ensures Walk(Slots(b), HeaderData(b))
         == [AsItem(PtsDtsBytes(b)), AsItem(EscrBytes(b)), AsItem(EsRateBytes(b)), AsItem(TrickModeBytes(b)),
             AsItem(CopyInfoBytes(b)), AsItem(CrcBytes(b))]
    ensures (PtsDtsBytes(b) == Err(PtsDtsFlagsInvalid) <==> PtsDtsFlags(b) == 1)
         && (PtsDtsBytes(b) == Err(FieldNotPresent) <==> PtsDtsFlags(b) == 0)
  {
    WhyNoStamps(b);
    hide Take, After, Rest, Walk, Cut, StandsAt, Slots, HeaderEnd, HeaderSlice, PtsDtsFlags, EscrFlag, EsRateFlag,
      TrickModeFlag, CopyInfoFlag, CrcFlag, PtsDtsEnd, EscrEnd, EsRateEnd, TrickModeEnd, CopyInfoEnd;
    AcceptedFits(b);
    ChainIsSequential(b);
    PtsDtsOrder(b);
    SliceIsCut(b, FIXED_HEADER_SIZE, PtsDtsEnd(b));
    SliceIsCut(b, PtsDtsEnd(b), PtsDtsEnd(b) + ESCR_SIZE);
    SliceIsCut(b, EscrEnd(b), EscrEnd(b) + ES_RATE_SIZE);
    SliceIsCut(b, EsRateEnd(b), EsRateEnd(b) + DSM_TRICK_MODE_SIZE);
    SliceIsCut(b, TrickModeEnd(b), TrickModeEnd(b) + ADDITIONAL_COPY_INFO_SIZE);
    SliceIsCut(b, CopyInfoEnd(b), CopyInfoEnd(b) + PREVIOUS_PES_PACKET_CRC_SIZE);
  }

  lemma AcceptedFits(b: Parsed)
    ensures FIXED_HEADER_SIZE <= CrcEnd(b) <= HeaderEnd(b) <= |b|
  {
  }

  lemma PtsDtsOrder(b: Buffer)
    ensures FIXED_HEADER_SIZE <= PtsDtsEnd(b)
    ensures PtsDtsFlags(b) >= 2 <==> PtsDtsFlags(b) != 0 && PtsDtsFlags(b) != 1
  {
  }

  /** Once accepted, no getter of a field up to the CRC lacks data; and the fields are
      consecutive and disjoint: with the extension or stuffing and the payload they are
      every byte after the first three. */
  lemma AcceptedLayout(b: Parsed)
    ensures var items := [AsItem(PtsDtsBytes(b)), AsItem(EscrBytes(b)), AsItem(EsRateBytes(b)), AsItem(TrickModeBytes(b)),
                          AsItem(CopyInfoBytes(b)), AsItem(CrcBytes(b))];
            && AllFit(Slots(b), items)
            && CrcEnd(b) <= HeaderEnd(b) <= |b|
            && Write(Slots(b), items) + b[CrcEnd(b)..HeaderEnd(b)] + PayloadOf(b) == b[FIXED_HEADER_SIZE..]
  {
    hide Take, After, Rest, Walk, Cut, Slots, AllFit, Fits, Write, PtsDtsBytes, EscrBytes, EsRateBytes, TrickModeBytes,
      CopyInfoBytes, CrcBytes, CrcEnd, HeaderEnd, AsItem;
    var slots, h := Slots(b), b[..HeaderEnd(b)];
    AcceptedFits(b);
    AcceptedExactly(b);
    GettersAreSequential(b);
    WalkCovers(slots, HeaderData(b));
    ChainIsSequential(b);
    assert Rest(slots, HeaderData(b), 6) == Some(b[CrcEnd(b)..HeaderEnd(b)]) by {
      assert h[CrcEnd(b)..] == b[CrcEnd(b)..HeaderEnd(b)];
    }
    assert b[FIXED_HEADER_SIZE..] == HeaderData(b) + PayloadOf(b);
  }

  // ----- values -----

  datatype PtsDts = PtsOnly(pts: Stamp) | Both(pts: Stamp, dts: Stamp)

  datatype FrequencyTruncation = DCNonZero | FirstThreeNonZero | FirstSixNonZero | AllMaybeNonZero

  datatype TrickMode =
    | FastForward(fieldId: byte, intraSliceRefresh: bool, truncation: FrequencyTruncation)
    | SlowMotion(repCntrl: byte)
    | FreezeFrame(fieldId: byte, reserved: byte)
    | FastReverse(fieldId: byte, intraSliceRefresh: bool, truncation: FrequencyTruncation)
    | SlowReverse(repCntrl: byte)
    | Reserved(control: byte)

  function PtsDtsOf(b: Parsed): Read<PtsDts> {
    match PtsDtsBytes(b)
    case Err(e) => Err(e)
    case Ok(s) =>
      if PtsDtsFlags(b) == 2 then Ok(PtsOnly(ParseStamp(s)))
      else Ok(Both(ParseStamp(s[..TIMESTAMP_SIZE]), ParseStamp(s[TIMESTAMP_SIZE..])))
  }

  function Escr(b: Parsed): Read<ClockRef> {
    match EscrBytes(b) case Err(e) => Err(e) case Ok(s) => Ok(ParseEscr(s))
  }

  function Rate22(a: byte, b: byte, c: byte): bv32 {
    ((a & 0x7f) as bv32 << 15) | (b as bv32 << 7) | ((c & 0xfe) as bv32 >> 1)
  }

  function EsRate(b: Parsed): Read<bv32> {
    match EsRateBytes(b) case Err(e) => Err(e) case Ok(s) => Ok(Rate22(s[0], s[1], s[2]))
  }

  function Truncation(id: byte): FrequencyTruncation
    requires id < 4
  {
    if id == 0 then DCNonZero else if id == 1 then FirstThreeNonZero else if id == 2 then FirstSixNonZero else AllMaybeNonZero
  }

  function ParseTrickMode(v: byte): TrickMode {
    var control, data := v >> 5, v & 0x1f;
    if control == 0 then FastForward(data >> 3, data & 4 != 0, Truncation(data & 3))
    else if control == 1 then SlowMotion(data)
    else if control == 2 then FreezeFrame(data >> 3, data & 7)
    else if control == 3 then FastReverse(data >> 3, data & 4 != 0, Truncation(data & 3))
    else if control == 4 then SlowReverse(data)
    else Reserved(control)
  }

  function TrickModeOf(b: Parsed): Read<TrickMode> {
    match TrickModeBytes(b) case Err(e) => Err(e) case Ok(s) => Ok(ParseTrickMode(s[0]))
  }

  function CopyInfo(b: Parsed): Read<byte> {
    match CopyInfoBytes(b)
    case Err(e) => Err(e)
    case Ok(s) => if s[0] & 0x80 == 0 then Err(PesError.MarkerBitNotSet) else Ok(s[0] & 0x7f)
  }

  function PreviousCrc(b: Parsed): Read<nat> {
    match CrcBytes(b) case Err(e) => Err(e) case Ok(s) => Ok(Number16(s[0], s[1]))
  }

  function Priority(b: Buffer): byte { (b[0] >> 3) & 1 }

  predicate Aligned(b: Buffer) { b[0] & 4 != 0 }

  predicate Copyrighted(b: Buffer) { b[0] & 2 != 0 }

  predicate Original(b: Buffer) { b[0] & 1 != 0 }

  /** `EsRate::new` and `ClockRef::from_parts` never panic here. */
  lemma ValuesInRange(b: Parsed)
    ensures Escr(b).Ok? ==> ValidClock(Escr(b).value)
    ensures EsRate(b).Ok? ==> EsRate(b).value < 0x40_0000
  {
    hide Rate22, ParseEscr;
    if EscrBytes(b).Ok? { EscrNeverPanics(EscrBytes(b).value); }
    if EsRateBytes(b).Ok? { var s := EsRateBytes(b).value; RateFits(s[0], s[1], s[2]); }
  }

  lemma RateFits(a: byte, b: byte, c: byte)
    ensures Rate22(a, b, c) < 0x40_0000
  {
  }

  // ----- a multiplexer's header -----

  datatype Stamps = NoStamps | OnlyPts(pts: bv64) | PtsAndDts(pts: bv64, dts: bv64)

  datatype Header = Header(
    priority: bool, aligned: bool, copyrighted: bool, original: bool,
    stamps: Stamps, escr: Option<ClockRef>, rate: Option<bv32>, trickMode: Option<TrickMode>, copyInfo: Option<byte>,
    crc: Option<nat>, extension: Option<seq<byte>>)

  ghost predicate ValidTrickMode(m: TrickMode) {
    match m
    case FastForward(field, _, _) => field < 4
    case FastReverse(field, _, _) => field < 4
    case SlowMotion(count) => count < 32
    case SlowReverse(count) => count < 32
    case FreezeFrame(field, reserved) => field < 4 && reserved < 8
    case Reserved(control) => 5 <= control < 8
  }

  ghost predicate ValidHeader(h: Header) {
    && (!h.stamps.NoStamps? ==> h.stamps.pts < TIMESTAMP_LIMIT)
    && (h.stamps.PtsAndDts? ==> h.stamps.dts < TIMESTAMP_LIMIT)
    && (h.escr.Some? ==> ValidClock(h.escr.value))
    && (h.rate.Some? ==> h.rate.value < 0x40_0000)
    && (h.trickMode.Some? ==> ValidTrickMode(h.trickMode.value))
    && (h.copyInfo.Some? ==> h.copyInfo.value < 0x80)
    && (h.crc.Some? ==> h.crc.value < 0x1_0000)
    && (h.extension.Some? ==> h.extension.value != [])
  }

  function StampBytes(s: Stamps): Item {
    match s
    case NoStamps => Absent
    case OnlyPts(pts) => Got(EncodeStamp(2, pts))
    case PtsAndDts(pts, dts) => Got(EncodeStamp(3, pts) + EncodeStamp(1, dts))
  }

  function EncodeRate(v: bv32, other: byte): (s: seq<byte>)
    ensures |s| == 3
  {
    [(other & 0x80) | (((v >> 15) & 0x7f) as byte), ((v >> 7) & 0xff) as byte,
     ((v & 0x7f) as byte << 1) | (other & 1)]
  }

  lemma RateBack(v: bv32, other: byte)
    requires v < 0x40_0000
    ensures var s := EncodeRate(v, other); Rate22(s[0], s[1], s[2]) == v
  {
  }

  function TruncationId(t: FrequencyTruncation): (id: byte)
    ensures id < 4
  {
    match t case DCNonZero => 0 case FirstThreeNonZero => 1 case FirstSixNonZero => 2 case AllMaybeNonZero => 3
  }

  function EncodeTrickMode(m: TrickMode, other: byte): byte {
    match m
    case FastForward(field, refresh, truncation) => (field << 3) | (if refresh then 4 else 0) | TruncationId(truncation)
    case SlowMotion(count) => 0x20 | count
    case FreezeFrame(field, reserved) => 0x40 | (field << 3) | reserved
    case FastReverse(field, refresh, truncation) =>
      0x60 | (field << 3) | (if refresh then 4 else 0) | TruncationId(truncation)
    case SlowReverse(count) => 0x80 | count
    case Reserved(control) => (control << 5) | (other & 0x1f)
  }

  /** Every field of every variant comes back; of a reserved control only the control, which
      is all that its variant keeps. */
  lemma TrickModeBack(m: TrickMode, other: byte)
    requires ValidTrickMode(m)
    ensures ParseTrickMode(EncodeTrickMode(m, other)) == m
  {
  }

  lemma CopyInfoBack(v: byte)
    requires v < 0x80
    ensures (0x80 | v) & 0x80 != 0 && (0x80 | v) & 0x7f == v
  {
  }

  function Items(h: Header, other: byte): (items: seq<Item>)
    requires ValidHeader(h)
    ensures |items| == 6
  {
    [StampBytes(h.stamps),
     if h.escr.Some? then Got(EncodeEscr(h.escr.value, other)) else Absent,
     if h.rate.Some? then Got(EncodeRate(h.rate.value, other)) else Absent,
     if h.trickMode.Some? then Got([EncodeTrickMode(h.trickMode.value, other)]) else Absent,
     if h.copyInfo.Some? then Got([0x80 | h.copyInfo.value]) else Absent,
     if h.crc.Some? then Got([ByteOf(h.crc.value / 256), ByteOf(h.crc.value % 256)]) else Absent]
  }

  /** The second byte: which fields follow. */
  function Announced(h: Header): byte {
    Flags(!h.stamps.NoStamps?, h.stamps.PtsAndDts?, h.escr.Some?, h.rate.Some?, h.trickMode.Some?, h.copyInfo.Some?,
          h.crc.Some?, h.extension.Some?)
  }

  /** The first byte: check bits, scrambling control from `other`, and the four indicators. */
  function Indicators(h: Header, other: byte): byte {
    Flags(true, false, other & 0x20 != 0, other & 0x10 != 0, h.priority, h.aligned, h.copyrighted, h.original)
  }

  lemma {:induction false} FlagShifts(f7: bool, f6: bool, f5: bool, f4: bool, f3: bool, f2: bool, f1: bool, f0: bool)
    ensures var v := Flags(f7, f6, f5, f4, f3, f2, f1, f0);
            && v >> 6 == (if f7 then 2 else 0) + (if f6 then 1 else 0)
            && ((v >> 5) & 1 != 0 <==> f5) && ((v >> 4) & 1 != 0 <==> f4) && ((v >> 3) & 1 != 0 <==> f3)
            && ((v >> 2) & 1 != 0 <==> f2) && ((v >> 1) & 1 != 0 <==> f1) && (v & 1 != 0 <==> f0)
            && (v >> 3) & 1 == (if f3 then 1 else 0)
            && (v & 4 != 0 <==> f2) && (v & 2 != 0 <==> f1)
  {
  }

  /** The slots that the flags of `h` announce. */
  function Plan(h: Header): (slots: seq<Slot>)
    ensures |slots| == 6
  {
    [Slot(!h.stamps.NoStamps?, Fixed(if h.stamps.PtsAndDts? then TIMESTAMP_SIZE * 2 else TIMESTAMP_SIZE)),
     Slot(h.escr.Some?, Fixed(ESCR_SIZE)), Slot(h.rate.Some?, Fixed(ES_RATE_SIZE)),
     Slot(h.trickMode.Some?, Fixed(DSM_TRICK_MODE_SIZE)), Slot(h.copyInfo.Some?, Fixed(ADDITIONAL_COPY_INFO_SIZE)),
     Slot(h.crc.Some?, Fixed(PREVIOUS_PES_PACKET_CRC_SIZE))]
  }

  lemma PlanFits(h: Header, other: byte)
    requires ValidHeader(h)
    ensures AllFit(Plan(h), Items(h, other))
  {
    hide EncodeStamp, EncodeEscr, EncodeRate, EncodeTrickMode, ByteOf;
  }

  lemma PlanIsSlots(b: Buffer, h: Header)
    requires b[1] == Announced(h)
    ensures Slots(b) == Plan(h)
    ensures ExtensionFlag(b) <==> h.extension.Some?
    ensures PtsDtsFlags(b) == (if h.stamps.NoStamps? then 0 else if h.stamps.OnlyPts? then 2 else 3)
  {
    hide Flags;
    FlagShifts(!h.stamps.NoStamps?, h.stamps.PtsAndDts?, h.escr.Some?, h.rate.Some?, h.trickMode.Some?, h.copyInfo.Some?,
               h.crc.Some?, h.extension.Some?);
  }

  /** What follows the fields in the header: the extension, then stuffing. */
  function Trailer(h: Header, stuffing: seq<byte>): seq<byte> {
    (if h.extension.Some? then h.extension.value else []) + stuffing
  }

  function FieldBytes(h: Header, other: byte): seq<byte>
    requires ValidHeader(h)
  {
    PlanFits(h, other);
    Write(Plan(h), Items(h, other))
  }

  function Encode(h: Header, other: byte, stuffing: seq<byte>, payload: seq<byte>): (b: Buffer)
    requires ValidHeader(h) && |FieldBytes(h, other) + Trailer(h, stuffing)| < 256
    ensures b[0] == Indicators(h, other) && b[1] == Announced(h)
  {
    var data := FieldBytes(h, other) + Trailer(h, stuffing);
    [Indicators(h, other), Announced(h), ByteOf(|data|)] + data + payload
  }

  ghost predicate Encodable(h: Header, other: byte, stuffing: seq<byte>) {
    ValidHeader(h) && |FieldBytes(h, other) + Trailer(h, stuffing)| < 256
  }

  lemma IndicatorsRead(h: Header, other: byte)
    ensures var v := Indicators(h, other);
            && v >> 6 == 2 && (v >> 3) & 1 == (if h.priority then 1 else 0)
            && (v & 4 != 0 <==> h.aligned) && (v & 2 != 0 <==> h.copyrighted) && (v & 1 != 0 <==> h.original)
  {
    hide Flags;
    FlagShifts(true, false, other & 0x20 != 0, other & 0x10 != 0, h.priority, h.aligned, h.copyrighted, h.original);
  }

  lemma EncodedParts(h: Header, other: byte, stuffing: seq<byte>, payload: seq<byte>)
    requires Encodable(h, other, stuffing)
    ensures var b := Encode(h, other, stuffing, payload);
            && HeaderEnd(b) <= |b|
            && HeaderData(b) == FieldBytes(h, other) + Trailer(h, stuffing)
            && b[HeaderEnd(b)..] == payload
  {
    hide Indicators, Announced, FieldBytes, Trailer;
    var b, data := Encode(h, other, stuffing, payload), FieldBytes(h, other) + Trailer(h, stuffing);
    assert HeaderEnd(b) == 3 + |data|;
    assert b[..HeaderEnd(b)][3..] == data;
  }

  lemma EncodedWalk(h: Header, other: byte, stuffing: seq<byte>, payload: seq<byte>)
    requires Encodable(h, other, stuffing)
    ensures var b := Encode(h, other, stuffing, payload);
            && HeaderEnd(b) <= |b|
            && Slots(b) == Plan(h) && AllFit(Plan(h), Items(h, other))
            && Walk(Slots(b), HeaderData(b)) == Items(h, other)
            && Rest(Slots(b), HeaderData(b), 6) == Some(Trailer(h, stuffing))
  {
    hide Encode, Indicators, Announced, Items, Plan, Slots, Trailer, Walk, Rest, HeaderData, HeaderEnd, Write;
    var b := Encode(h, other, stuffing, payload);
    PlanIsSlots(b, h);
    PlanFits(h, other);
    EncodedParts(h, other, stuffing, payload);
    WalkWritten(Plan(h), Items(h, other), Trailer(h, stuffing));
  }

  /** What is written is accepted, and its fields, extension and payload are where the getters look. */
  lemma EncodedAccepted(h: Header, other: byte, stuffing: seq<byte>, payload: seq<byte>)
    requires Encodable(h, other, stuffing)
    ensures var b := Encode(h, other, stuffing, payload);
            && FromBytes(b) == Ok(b)
            && PayloadOf(b) == payload
            && b[CrcEnd(b)..HeaderEnd(b)] == Trailer(h, stuffing)
            && [AsItem(PtsDtsBytes(b)), AsItem(EscrBytes(b)), AsItem(EsRateBytes(b)), AsItem(TrickModeBytes(b)),
                AsItem(CopyInfoBytes(b)), AsItem(CrcBytes(b))] == Items(h, other)
  {
    hide Encode, Indicators, Announced, Items, Plan, Slots, Trailer, Walk, Rest, AllFit, AsItem, PtsDtsBytes, EscrBytes,
      EsRateBytes, TrickModeBytes, CopyInfoBytes, CrcBytes, HeaderEnd, CrcEnd;
    var b := Encode(h, other, stuffing, payload);
    EncodedParts(h, other, stuffing, payload);
    EncodedWalk(h, other, stuffing, payload);
    IndicatorsRead(h, other);
    AcceptedExactly(b);
    AcceptedIsSame(b);
    GettersAreSequential(b);
    AcceptedFits(b);
    ChainIsSequential(b);
    assert b[..HeaderEnd(b)][CrcEnd(b)..] == b[CrcEnd(b)..HeaderEnd(b)];
  }

  lemma AcceptedIsSame(b: seq<byte>)
    requires FromBytes(b).Ok?
    ensures FromBytes(b) == Ok(b)
  {
  }

  /** The value of an optional field as its getter returns it. */
  function Returned<T>(o: Option<T>): Read<T> {
    match o case None => Err(FieldNotPresent) case Some(v) => Ok(v)
  }

  function ReturnedStamps(s: Stamps): Read<PtsDts> {
    match s
    case NoStamps => Err(FieldNotPresent)
    case OnlyPts(pts) => Ok(PtsOnly(Ok(pts)))
    case PtsAndDts(pts, dts) => Ok(Both(Ok(pts), Ok(dts)))
  }

  lemma FromItem(r: Read<seq<byte>>, item: Item)
    requires AsItem(r) == item
    ensures item.Got? ==> r == Ok(item.bytes)
    ensures item.Absent? ==> r == Err(FieldNotPresent) || r == Err(PtsDtsFlagsInvalid)
  {
  }

  lemma StampsBack(h: Header, other: byte, b: Parsed)
    requires ValidHeader(h) && b[1] == Announced(h) && AsItem(PtsDtsBytes(b)) == Items(h, other)[0]
    ensures PtsDtsOf(b) == ReturnedStamps(h.stamps)
  {
    hide EncodeStamp, ParseStamp, Announced, PtsDtsFlags, HeaderSlice, Slots;
    PlanIsSlots(b, h);
    FromItem(PtsDtsBytes(b), StampBytes(h.stamps));
    match h.stamps
    case NoStamps =>
    case OnlyPts(pts) => StampRoundTrip(2, pts);
    case PtsAndDts(pts, dts) =>
      StampRoundTrip(3, pts);
      StampRoundTrip(1, dts);
      var s := EncodeStamp(3, pts) + EncodeStamp(1, dts);
      assert s[..TIMESTAMP_SIZE] == EncodeStamp(3, pts) && s[TIMESTAMP_SIZE..] == EncodeStamp(1, dts);
  }

  lemma NumbersBack(h: Header, other: byte, b: Parsed)
    requires ValidHeader(h)
    requires AsItem(EscrBytes(b)) == Items(h, other)[1] && AsItem(EsRateBytes(b)) == Items(h, other)[2]
    ensures Escr(b) == Returned(h.escr) && EsRate(b) == Returned(h.rate)
  {
    hide EncodeEscr, ParseEscr, EncodeRate, Rate22, HeaderSlice, EscrFlag, EsRateFlag, PtsDtsEnd, EscrEnd;
    if h.escr.Some? { EscrRoundTrip(h.escr.value, other); }
    if h.rate.Some? { RateBack(h.rate.value, other); }
    SliceFails(b);
  }

  lemma OctetsBack(h: Header, other: byte, b: Parsed)
    requires ValidHeader(h)
    requires AsItem(TrickModeBytes(b)) == Items(h, other)[3] && AsItem(CopyInfoBytes(b)) == Items(h, other)[4]
    requires AsItem(CrcBytes(b)) == Items(h, other)[5]
    ensures TrickModeOf(b) == Returned(h.trickMode) && CopyInfo(b) == Returned(h.copyInfo) && PreviousCrc(b) == Returned(h.crc)
  {
    hide EncodeTrickMode, ParseTrickMode, Number16, ByteOf, HeaderSlice, TrickModeFlag, CopyInfoFlag, CrcFlag,
      EsRateEnd, TrickModeEnd, CopyInfoEnd;
    if h.trickMode.Some? { TrickModeBack(h.trickMode.value, other); }
    if h.copyInfo.Some? { CopyInfoBack(h.copyInfo.value); }
    if h.crc.Some? { Number16Bytes(h.crc.value); }
    SliceFails(b);
  }

  lemma SliceFails(b: Parsed)
    ensures forall from: nat, to: nat {:trigger HeaderSlice(b, from, to)} | from <= to ::
              HeaderSlice(b, from, to).Err? ==> HeaderSlice(b, from, to).error.NotEnoughData?
  {
  }

  lemma ExtensionBack(h: Header, b: Parsed, stuffing: seq<byte>)
    requires ValidHeader(h) && b[1] == Announced(h) && CrcEnd(b) <= HeaderEnd(b) <= |b|
    requires b[CrcEnd(b)..HeaderEnd(b)] == Trailer(h, stuffing)
    ensures ExtensionBytes(b) == if h.extension.Some? then Ok(h.extension.value + stuffing) else Err(FieldNotPresent)
  {
    hide Announced, ExtensionFlag, CrcEnd, HeaderEnd, Slots;
    PlanIsSlots(b, h);
  }

  /** Encoding any subset of the fields and decoding gives what was written: PTS and DTS, ESCR,
      ES rate, trick mode, copy info, CRC, extension and payload, with the indicators. */
  lemma HeaderRoundTrip(h: Header, other: byte, stuffing: seq<byte>, payload: seq<byte>)
    requires Encodable(h, other, stuffing)
    ensures var b := Encode(h, other, stuffing, payload);
            && FromBytes(b) == Ok(b)
            && Priority(b) == (if h.priority then 1 else 0)
            && (Aligned(b) <==> h.aligned) && (Copyrighted(b) <==> h.copyrighted) && (Original(b) <==> h.original)
            && PtsDtsOf(b) == ReturnedStamps(h.stamps)
            && Escr(b) == Returned(h.escr) && EsRate(b) == Returned(h.rate)
            && TrickModeOf(b) == Returned(h.trickMode) && CopyInfo(b) == Returned(h.copyInfo)
            && PreviousCrc(b) == Returned(h.crc)
            && ExtensionBytes(b) == (if h.extension.Some? then Ok(h.extension.value + stuffing) else Err(FieldNotPresent))
            && PayloadOf(b) == payload
  {
    hide Encode, Indicators, Announced, FromBytes, Items, PtsDtsOf, Escr, EsRate, TrickModeOf, CopyInfo, PreviousCrc, ExtensionBytes,
      ValidHeader, Trailer, AsItem, HeaderEnd, CrcEnd, PtsDtsBytes, EscrBytes, EsRateBytes, TrickModeBytes, CopyInfoBytes, CrcBytes,
      FieldBytes;
    var b := Encode(h, other, stuffing, payload);
    EncodedAccepted(h, other, stuffing, payload);
    IndicatorsRead(h, other);
    AcceptedFits(b);
    var items := Items(h, other);
    assert AsItem(PtsDtsBytes(b)) == items[0] && AsItem(EscrBytes(b)) == items[1] && AsItem(EsRateBytes(b)) == items[2]
        && AsItem(TrickModeBytes(b)) == items[3] && AsItem(CopyInfoBytes(b)) == items[4] && AsItem(CrcBytes(b)) == items[5];
    StampsBack(h, other, b);
    NumbersBack(h, other, b);
    OctetsBack(h, other, b);
    ExtensionBack(h, b, stuffing);
  }

  // ----- prefixes -----

  /** The stamps are decoded without their prefixes: the result is the one that checking them
      would give exactly if they are right. */
  lemma PrefixesUnchecked(b: Parsed)
    requires PtsDtsBytes(b).Ok?
    ensures var s := PtsDtsBytes(b).value;
            PtsDtsFlags(b) == 2 ==>
              (PtsDtsOf(b) == Ok(PtsOnly(ParsePts(s))) <==> s[0] >> 4 == 2 || s[0] >> 4 == 3)
    ensures var s := PtsDtsBytes(b).value;
            PtsDtsFlags(b) == 3 ==>
              (PtsDtsOf(b) == Ok(Both(ParsePts(s[..TIMESTAMP_SIZE]), ParseDts(s[TIMESTAMP_SIZE..])))
               <==> (s[0] >> 4 == 2 || s[0] >> 4 == 3) && s[TIMESTAMP_SIZE] >> 4 == 1)
  {
    hide StampBits, PtsDtsBytes;
    var s := PtsDtsBytes(b).value;
    PrefixMatters(s[..TIMESTAMP_SIZE]);
    if PtsDtsFlags(b) == 3 {
      PrefixMatters(s[TIMESTAMP_SIZE..]);
    } else {
      assert s[..TIMESTAMP_SIZE] == s;
    }
  }

  lemma PrefixMatters(s: seq<byte>)
    requires |s| >= TIMESTAMP_SIZE
    ensures ParsePts(s) == ParseStamp(s) <==> s[0] >> 4 == 2 || s[0] >> 4 == 3
    ensures ParseDts(s) == ParseStamp(s) <==> s[0] >> 4 == 1
  {
    hide StampBits;
  }

  /** For example, an accepted header whose only stamp has no prefix bit set. */
  lemma WrongPrefixDecodes()
    ensures var b := [0x80, 0x80, 0x05, 0x01, 0x00, 0x01, 0x00, 0x01];
            && FromBytes(b) == Ok(b)
            && PtsDtsOf(b) == Ok(PtsOnly(Ok(0)))
            && ParsePts(b[3..]) == Err(IncorrectPrefixBits(2, 0))
  {
    var b: seq<byte> := [0x80, 0x80, 0x05, 0x01, 0x00, 0x01, 0x00, 0x01];
    assert b[3..8] == [0x01, 0x00, 0x01, 0x00, 0x01];
  }

  // ----- refusals -----

  /** Why a header is refused, by the first of the checks that it fails. */
  lemma RefusedBecause(b: seq<byte>)
    ensures |b| < 3 ==> FromBytes(b) == Err(NotEnoughData(3, |b|))
    ensures |b| >= 3 && b[0] & 0xc0 != 0x80 ==> FromBytes(b) == Err(InvalidCheckBits)
    ensures |b| >= 3 && b[0] & 0xc0 == 0x80 && 3 + b[2] as nat > |b| ==> FromBytes(b) == Err(HeaderLengthExceedsBuffer)
    ensures |b| >= 3 && b[0] & 0xc0 == 0x80 && 3 + b[2] as nat <= |b| ==>
              FromBytes(b) == Ok(b) || FromBytes(b) == Err(HeaderDataLengthMismatch)
  {
    hide CrcEnd;
    if |b| >= 3 { CheckBits(b[0]); }
  }

  lemma CheckBits(b: byte)
    ensures b >> 6 == 2 <==> b & 0xc0 == 0x80
  {
  }

  /** What the two getters that look further refuse: copy info without its marker bit, and an
      extension of no bytes. */
  lemma FieldsRefused(b: Parsed)
    ensures CopyInfoBytes(b).Ok? ==>
              var v := CopyInfoBytes(b).value[0];
              CopyInfo(b) == if v & 0x80 != 0 then Ok(v & 0x7f) else Err(PesError.MarkerBitNotSet)
    ensures ExtensionFlag(b) && CrcEnd(b) == HeaderEnd(b) ==> ExtensionBytes(b) == Err(NotEnoughData(1, 0))
    ensures ExtensionFlag(b) && CrcEnd(b) < HeaderEnd(b) ==> ExtensionBytes(b) == Ok(b[CrcEnd(b)..HeaderEnd(b)])
  {
    hide CrcEnd, HeaderEnd, CopyInfoBytes, ExtensionFlag;
    AcceptedFits(b);
  }
}
