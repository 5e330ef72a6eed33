/** The PES extension (src/pes.rs `PesExtension`, `PackHeader`): a flag-driven layout with a
    counted field in the middle and a nested layout at the end. */
module PesExtensions {
  import opened Bytes
  import opened Clocks
  import opened Layouts
  import PesHeaders

  type Read<T> = PesHeaders.Read<T>

  const PRIVATE_DATA_SIZE := 16
  const SEQUENCE_COUNTER_SIZE := 2
  const P_STD_BUFFER_SIZE := 2

  /** `PesExtension::from_bytes` refuses only the empty buffer. */
  type Buffer = b: seq<byte> | b != [] witness [0x00]

  predicate PrivateDataFlag(b: Buffer) { b[0] & 0x80 != 0 }

  predicate PackHeaderFlag(b: Buffer) { b[0] & 0x40 != 0 }

  predicate SequenceCounterFlag(b: Buffer) { b[0] & 0x20 != 0 }

  predicate PStdBufferFlag(b: Buffer) { b[0] & 0x10 != 0 }

  predicate Extension2Flag(b: Buffer) { b[0] & 0x08 != 0 }

  const NotPresent: PesHeaders.PesError := PesHeaders.FieldNotPresent

  const NoMarker: PesHeaders.PesError := PesHeaders.PesError.MarkerBitNotSet

  function Slice(b: Buffer, from: nat, to: nat): (r: Read<seq<byte>>)
    requires from <= to
    ensures r.Ok? ==> |r.value| == to - from
  {
    if to > |b| then Err(PesHeaders.NotEnoughData(to, |b|)) else Ok(b[from..to])
  }

  // ----- the offset chain -----

  function PrivateDataEnd(b: Buffer): nat { 1 + if PrivateDataFlag(b) then PRIVATE_DATA_SIZE else 0 }

  function PackHeaderEnd(b: Buffer): Read<nat> {
    var start := PrivateDataEnd(b);
    if !PackHeaderFlag(b) then Ok(start)
    else if start >= |b| then Err(PesHeaders.NotEnoughData(start + 1, |b|))
    else Ok(start + 1 + b[start] as nat)
  }

  function SequenceCounterEnd(b: Buffer): Read<nat> {
    match PackHeaderEnd(b)
    case Err(e) => Err(e)
    case Ok(start) => Ok(start + if SequenceCounterFlag(b) then SEQUENCE_COUNTER_SIZE else 0)
  }

  function PStdBufferEnd(b: Buffer): Read<nat> {
    match SequenceCounterEnd(b)
    case Err(e) => Err(e)
    case Ok(start) => Ok(start + if PStdBufferFlag(b) then P_STD_BUFFER_SIZE else 0)
  }

  // ----- the bytes of each field -----

  function PrivateData(b: Buffer): Read<seq<byte>> {
    if PrivateDataFlag(b) then Slice(b, 1, 1 + PRIVATE_DATA_SIZE) else Err(NotPresent)
  }

  function PackHeaderBytes(b: Buffer): Read<seq<byte>> {
    if !PackHeaderFlag(b) then Err(NotPresent)
    else
      var dataStart := PrivateDataEnd(b) + 1;
      match PackHeaderEnd(b) case Err(e) => Err(e) case Ok(end) => Slice(b, dataStart, end)
  }

  function SequenceCounterBytes(b: Buffer): (r: Read<seq<byte>>)
    ensures r.Ok? ==> |r.value| == SEQUENCE_COUNTER_SIZE
  {
    if !SequenceCounterFlag(b) then Err(NotPresent)
    else match PackHeaderEnd(b) case Err(e) => Err(e) case Ok(start) => Slice(b, start, start + SEQUENCE_COUNTER_SIZE)
  }

  function PStdBufferBytes(b: Buffer): (r: Read<seq<byte>>)
    ensures r.Ok? ==> |r.value| == P_STD_BUFFER_SIZE
  {
    if !PStdBufferFlag(b) then Err(NotPresent)
    else match SequenceCounterEnd(b) case Err(e) => Err(e) case Ok(start) => Slice(b, start, start + P_STD_BUFFER_SIZE)
  }

  /** `pes_extension_2_data`: the index of the data byte, and its stream_id_extension_flag. */
  function Extension2Data(b: Buffer): (r: Read<(nat, bool)>)
    ensures r.Ok? ==> r.value.0 < |b|
  {
    if !Extension2Flag(b) then Err(NotPresent)
    else match PStdBufferEnd(b)
      case Err(e) => Err(e)
      case Ok(start) =>
        if start >= |b| then Err(PesHeaders.NotEnoughData(start + 1, |b|))
        else if b[start] & 0x80 == 0 then Err(NoMarker)
        else if start + 1 >= |b| then Err(PesHeaders.NotEnoughData(start + 2, |b|))
        else Ok((start + 1, b[start + 1] & 0x80 != 0))
  }

  function StreamIdExtension(b: Buffer): Read<byte> {
    match Extension2Data(b)
    case Err(e) => Err(e)
    case Ok((at, flag)) => if flag then Err(NotPresent) else Ok(b[at] & 0x7f)
  }

  function Tref(b: Buffer): Read<bv64> {
    match Extension2Data(b)
    case Err(e) => Err(e)
    case Ok((at, flag)) =>
      if !flag || b[at] & 0x01 != 0 then Err(NotPresent)
      else match Slice(b, at + 1, at + 6)
        case Err(e) => Err(e)
        case Ok(s) => match ParseStamp(s) case Err(_) => Err(NoMarker) case Ok(t) => Ok(t)
  }

  // ----- agreement with one sequential reading -----

  function Slots(b: Buffer): (slots: seq<Slot>)
    ensures |slots| == 4
  {
    [Slot(PrivateDataFlag(b), Fixed(PRIVATE_DATA_SIZE)), Slot(PackHeaderFlag(b), Counted),
     Slot(SequenceCounterFlag(b), Fixed(SEQUENCE_COUNTER_SIZE)), Slot(PStdBufferFlag(b), Fixed(P_STD_BUFFER_SIZE))]
  }

  function AsItem(r: Read<seq<byte>>): Item {
    match r case Ok(s) => Got(s) case Err(e) => if e == NotPresent then Absent else Short
  }

  lemma SliceIsCut(b: Buffer, from: nat, to: nat)
    requires from <= to
    ensures AsItem(Slice(b, from, to)) == Cut(b, from, to)
  {
  }

  lemma FirstTwo(b: Buffer)
    ensures Walk(Slots(b), b[1..])[0] == AsItem(PrivateData(b)) && Walk(Slots(b), b[1..])[1] == AsItem(PackHeaderBytes(b))
    ensures if PackHeaderEnd(b).Ok? then StandsAt(b, PackHeaderEnd(b).value, Rest(Slots(b), b[1..], 2))
            else Rest(Slots(b), b[1..], 2).None? && PackHeaderEnd(b).error.NotEnoughData?
  {
    hide Take, After, Rest, Walk, Cut, StandsAt, Slice, PrivateDataFlag, PackHeaderFlag;
    WalkStarts(Slots(b), b, 1);
    WalkFixed(Slots(b), b, 1, 0, 1);
    SliceIsCut(b, 1, 1 + PRIVATE_DATA_SIZE);
    var start := PrivateDataEnd(b);
    WalkCounted(Slots(b), b, 1, 1, start);
    if PackHeaderEnd(b).Ok? && PackHeaderFlag(b) {
      SliceIsCut(b, start + 1, PackHeaderEnd(b).value);
    }
  }

  lemma LastTwo(b: Buffer)
    ensures Walk(Slots(b), b[1..])[2] == AsItem(SequenceCounterBytes(b))
    ensures Walk(Slots(b), b[1..])[3] == AsItem(PStdBufferBytes(b))
    ensures if PStdBufferEnd(b).Ok? then StandsAt(b, PStdBufferEnd(b).value, Rest(Slots(b), b[1..], 4))
            else Rest(Slots(b), b[1..], 4).None? && PStdBufferEnd(b).error.NotEnoughData?
  {
    hide Take, After, Rest, Walk, Cut, StandsAt, Slice, PackHeaderEnd, SequenceCounterFlag, PStdBufferFlag;
    FirstTwo(b);
    if PackHeaderEnd(b).Ok? {
      var start := PackHeaderEnd(b).value;
      WalkFixed(Slots(b), b, 1, 2, start);
      SliceIsCut(b, start, start + SEQUENCE_COUNTER_SIZE);
      var next := SequenceCounterEnd(b).value;
      WalkFixed(Slots(b), b, 1, 3, next);
      SliceIsCut(b, next, next + P_STD_BUFFER_SIZE);
    } else {
      WalkLost(Slots(b), b[1..], 2);
      WalkLost(Slots(b), b[1..], 3);
    }
  }

  /** What the last part holds, read from the bytes that the first four fields leave. */
  datatype Second = NoSecond | ShortSecond | UnmarkedSecond | StreamId(value: byte) | Other | ShortTref | TrefStamp(stamp: Stamp)

  function ReadSecond(present: bool, rest: Option<seq<byte>>): Second {
    if !present then NoSecond
    else if rest.None? || |rest.value| < 1 then ShortSecond
    else
      var s := rest.value;
      if s[0] & 0x80 == 0 then UnmarkedSecond
      else if |s| < 2 then ShortSecond
      else if s[1] & 0x80 == 0 then StreamId(s[1] & 0x7f)
      else if s[1] & 0x01 != 0 then Other
      else if |s| < 7 then ShortTref
      else TrefStamp(ParseStamp(s[2..7]))
  }

  /** For every buffer, the four getters with their offset chain find what one sequential
      reading finds. */
  lemma GettersAreSequential(b: Buffer)
    ensures Walk(Slots(b), b[1..])
         == [AsItem(PrivateData(b)), AsItem(PackHeaderBytes(b)), AsItem(SequenceCounterBytes(b)), AsItem(PStdBufferBytes(b))]
  {
    hide Walk, AsItem, PrivateData, PackHeaderBytes, SequenceCounterBytes, PStdBufferBytes;
    FirstTwo(b);
    LastTwo(b);
  }

  predicate LacksData<T>(r: Read<T>) { r.Err? && r.error.NotEnoughData? }

  predicate AgreeOnStreamId(r: Read<byte>, second: Second) {
    match second
    case ShortSecond => LacksData(r)
    case UnmarkedSecond => r == Err(NoMarker)
    case StreamId(v) => r == Ok(v)
    case _ => r == Err(NotPresent)
  }

  predicate AgreeOnTref(r: Read<bv64>, second: Second) {
    match second
    case ShortSecond => LacksData(r)
    case UnmarkedSecond => r == Err(NoMarker)
    case ShortTref => LacksData(r)
    case TrefStamp(stamp) => r == if stamp.Ok? then Ok(stamp.value) else Err(NoMarker)
    case _ => r == Err(NotPresent)
  }

  /** And so do the two getters of the nested part, errors included; at most one of them has a value. */
  lemma SecondIsSequential(b: Buffer)
    ensures var second := ReadSecond(Extension2Flag(b), Rest(Slots(b), b[1..], 4));
            && AgreeOnStreamId(StreamIdExtension(b), second) && AgreeOnTref(Tref(b), second)
  {
    hide Take, After, Rest, Walk, Cut, Extension2Flag, PStdBufferEnd, ParseStamp;
    LastTwo(b);
    if PStdBufferEnd(b).Ok? && PStdBufferEnd(b).value <= |b| {
      var s := b[PStdBufferEnd(b).value..];
      assert Rest(Slots(b), b[1..], 4) == Some(s);
      if |s| >= 7 {
        assert s[2..7] == b[PStdBufferEnd(b).value + 2..PStdBufferEnd(b).value + 7];
      }
    }
  }

  // ----- what is asked for -----

  /** `r` lacks data of a buffer of `have` bytes and says so; with `more` bytes behind it the
      getter returns `r'`, which is still that complaint exactly while there are fewer than
      were asked for. */
  ghost predicate AsksRightly<T(!new)>(r: Read<T>, have: nat, r': Read<T>, more: nat) {
    LacksData(r) ==>
      && r.error.available == have < r.error.requested
      && (r' == Err(PesHeaders.NotEnoughData(r.error.requested, have + more)) <==> have + more < r.error.requested)
  }

  lemma SameFlags(b: Buffer, more: seq<byte>)
    ensures PrivateDataFlag(b + more) == PrivateDataFlag(b) && PackHeaderFlag(b + more) == PackHeaderFlag(b)
    ensures SequenceCounterFlag(b + more) == SequenceCounterFlag(b) && PStdBufferFlag(b + more) == PStdBufferFlag(b)
    ensures Extension2Flag(b + more) == Extension2Flag(b)
  {
  }

  lemma EndAsks(b: Buffer, more: seq<byte>)
    ensures AsksRightly(PackHeaderEnd(b), |b|, PackHeaderEnd(b + more), |more|)
    ensures PackHeaderEnd(b).Ok? ==> PackHeaderEnd(b + more) == PackHeaderEnd(b)
  {
    hide PackHeaderFlag, PrivateDataFlag;
    SameFlags(b, more);
  }

  /** A complaint that bytes of the extension are missing names the number needed to get past
      it, no fewer and no more, and the number there are. The pack header, once its bytes are
      there, has a complaint of its own: see `PackHeaderLacks`. */
  lemma NotEnoughIsExact(b: Buffer, more: seq<byte>)
    ensures AsksRightly(PrivateData(b), |b|, PrivateData(b + more), |more|)
    ensures AsksRightly(PackHeaderBytes(b), |b|, PackHeaderBytes(b + more), |more|)
    ensures AsksRightly(SequenceCounterBytes(b), |b|, SequenceCounterBytes(b + more), |more|)
    ensures AsksRightly(PStdBufferBytes(b), |b|, PStdBufferBytes(b + more), |more|)
    ensures AsksRightly(Tref(b), |b|, Tref(b + more), |more|)
    ensures AsksRightly(StreamIdExtension(b), |b|, StreamIdExtension(b + more), |more|)
  {
    FirstAsk(b, more);
    LastAsk(b, more);
    NestedAsks(b, more);
  }

  lemma FirstAsk(b: Buffer, more: seq<byte>)
    ensures AsksRightly(PrivateData(b), |b|, PrivateData(b + more), |more|)
    ensures AsksRightly(PackHeaderBytes(b), |b|, PackHeaderBytes(b + more), |more|)
  {
    hide PrivateDataFlag, PackHeaderFlag;
    SameFlags(b, more);
    EndAsks(b, more);
  }

  /** Past an unreadable pack length, more bytes are asked for only by what comes after it. */
  lemma LaterEnd(b: Buffer)
    ensures PackHeaderFlag(b) && PackHeaderEnd(b).Ok? ==> PrivateDataEnd(b) < |b| && PrivateDataEnd(b) < PackHeaderEnd(b).value
    ensures PackHeaderEnd(b).Err? ==>
              && PackHeaderFlag(b) && PackHeaderEnd(b) == Err(PesHeaders.NotEnoughData(PrivateDataEnd(b) + 1, |b|))
  {
  }

  lemma LastAsk(b: Buffer, more: seq<byte>)
    ensures AsksRightly(SequenceCounterBytes(b), |b|, SequenceCounterBytes(b + more), |more|)
    ensures AsksRightly(PStdBufferBytes(b), |b|, PStdBufferBytes(b + more), |more|)
  {
    hide SequenceCounterFlag, PStdBufferFlag, PackHeaderFlag, PrivateDataFlag, PackHeaderEnd;
    SameFlags(b, more);
    EndAsks(b, more);
    LaterEnd(b);
    LaterEnd(b + more);
  }

  lemma DataAsks(b: Buffer, more: seq<byte>)
    ensures AsksRightly(Extension2Data(b), |b|, Extension2Data(b + more), |more|)
    ensures Extension2Data(b).Ok? ==> Extension2Data(b + more) == Extension2Data(b)
    ensures LacksData(Extension2Data(b)) && Extension2Data(b + more).Ok? ==>
              Extension2Data(b + more).value.0 + 1 >= Extension2Data(b).error.requested
  {
    hide SequenceCounterFlag, PStdBufferFlag, PackHeaderEnd, Extension2Flag, PackHeaderFlag, PrivateDataFlag;
    SameFlags(b, more);
    EndAsks(b, more);
    LaterEnd(b);
    LaterEnd(b + more);
  }

  lemma NestedAsks(b: Buffer, more: seq<byte>)
    ensures AsksRightly(Tref(b), |b|, Tref(b + more), |more|)
    ensures AsksRightly(StreamIdExtension(b), |b|, StreamIdExtension(b + more), |more|)
  {
    hide Extension2Data, ParseStamp;
    DataAsks(b, more);
  }

  // ----- values -----

  const PACK_MIN_SIZE := 14

  datatype Pack = Pack(scr: ClockRef, muxRate: bv32, stuffingLength: byte)

  function MuxRate(a: byte, b: byte, c: byte): bv32 {
    (a as bv32 << 14) | (b as bv32 << 6) | (c as bv32 >> 2)
  }

  /** `PackHeader::from_bytes` and its getters. */
  function ParsePack(s: seq<byte>): Read<Pack> {
    if |s| < PACK_MIN_SIZE then Err(PesHeaders.NotEnoughData(PACK_MIN_SIZE, |s|))
    else if !(s[0] == 0 && s[1] == 0 && s[2] == 1 && s[3] == 0xba) then Err(NoMarker)
    else if s[4] >> 6 != 1 then Err(NoMarker)
    else Ok(Pack(ParseEscr(s[4..10]), MuxRate(s[10], s[11], s[12]), s[13] & 0x07))
  }

  function PackHeader(b: Buffer): Read<Pack> {
    match PackHeaderBytes(b) case Err(e) => Err(e) case Ok(s) => ParsePack(s)
  }

  datatype SequenceCounter = SequenceCounter(counter: byte, mpeg1: bool, stuffLength: byte)

  function SequenceCounterOf(b: Buffer): Read<SequenceCounter> {
    match SequenceCounterBytes(b)
    case Err(e) => Err(e)
    case Ok(s) =>
      if s[0] & 0x80 == 0 then Err(NoMarker)
      else if s[1] & 0x80 == 0 then Err(NoMarker)
      else Ok(SequenceCounter(s[0] & 0x7f, s[1] & 0x40 != 0, s[1] & 0x3f))
  }

  datatype PStdBuffer = PStdBuffer(scale: bool, size: Pid)

  function PStdBufferOf(b: Buffer): Read<PStdBuffer> {
    match PStdBufferBytes(b)
    case Err(e) => Err(e)
    case Ok(s) => if s[0] & 0xc0 != 0x40 then Err(NoMarker) else Ok(PStdBuffer(s[0] & 0x20 != 0, Pid13(s[0], s[1])))
  }

  // ----- a multiplexer's extension -----

  datatype Tail = NoTail | StreamIdTail(value: byte) | TrefTail(t: bv64)

  datatype Extension = Extension(
    privateData: Option<seq<byte>>, pack: Option<Pack>, counter: Option<SequenceCounter>, buffer: Option<PStdBuffer>, tail: Tail)

  ghost predicate ValidExtension(x: Extension) {
    && (x.privateData.Some? ==> |x.privateData.value| == PRIVATE_DATA_SIZE)
    && (x.pack.Some? ==> ValidClock(x.pack.value.scr) && x.pack.value.muxRate < 0x40_0000 && x.pack.value.stuffingLength < 8)
    && (x.counter.Some? ==> x.counter.value.counter < 0x80 && x.counter.value.stuffLength < 0x40)
    && (x.tail.StreamIdTail? ==> x.tail.value < 0x80)
    && (x.tail.TrefTail? ==> x.tail.t < TIMESTAMP_LIMIT)
  }

  /** A pack header; `more` is a system header, if any. */
  function EncodePack(p: Pack, other: byte, more: seq<byte>): (s: seq<byte>)
    ensures |s| == PACK_MIN_SIZE + |more|
  {
    [0x00, 0x00, 0x01, 0xba] + EncodeEscr(p.scr, 0x40)
    + [((p.muxRate >> 14) & 0xff) as byte, ((p.muxRate >> 6) & 0xff) as byte, ((p.muxRate & 0x3f) as byte << 2) | 0x03,
       (other & 0xf8) | p.stuffingLength]
    + more
  }

  lemma MuxRateBack(v: bv32)
    requires v < 0x40_0000
    ensures MuxRate(((v >> 14) & 0xff) as byte, ((v >> 6) & 0xff) as byte, ((v & 0x3f) as byte << 2) | 0x03) == v
  {
  }

  lemma LowBits(other: byte, v: byte)
    requires v < 8
    ensures ((other & 0xf8) | v) & 0x07 == v
  {
  }

  lemma EscrLead(c: ClockRef)
    ensures EncodeEscr(c, 0x40)[0] >> 6 == 1
  {
  }

  lemma PackBack(p: Pack, other: byte, more: seq<byte>)
    requires ValidClock(p.scr) && p.muxRate < 0x40_0000 && p.stuffingLength < 8
    ensures ParsePack(EncodePack(p, other, more)) == Ok(p)
  {
    hide EncodeEscr, ParseEscr, MuxRate;
    EscrRoundTrip(p.scr, 0x40);
    EscrLead(p.scr);
    MuxRateBack(p.muxRate);
    LowBits(other, p.stuffingLength);
    assert EncodePack(p, other, more)[4..10] == EncodeEscr(p.scr, 0x40);
  }

  function EncodeCounter(c: SequenceCounter): (s: seq<byte>)
    ensures |s| == SEQUENCE_COUNTER_SIZE
  {
    [0x80 | c.counter, 0x80 | (if c.mpeg1 then 0x40 else 0) | c.stuffLength]
  }

  lemma CounterBack(c: SequenceCounter)
    requires c.counter < 0x80 && c.stuffLength < 0x40
    ensures var s := EncodeCounter(c);
            && s[0] & 0x80 != 0 && s[1] & 0x80 != 0
            && SequenceCounter(s[0] & 0x7f, s[1] & 0x40 != 0, s[1] & 0x3f) == c
  {
  }

  function EncodeBuffer(p: PStdBuffer): (s: seq<byte>)
    ensures |s| == P_STD_BUFFER_SIZE
  {
    [Under(ByteOf(p.size / 256), 0x1f, if p.scale then 0x60 else 0x40), ByteOf(p.size % 256)]
  }

  lemma BufferPrefix(hi: byte, scale: bool)
    ensures var v := Under(hi, 0x1f, if scale then 0x60 else 0x40); v & 0xc0 == 0x40 && (v & 0x20 != 0 <==> scale)
  {
  }

  lemma BufferBack(p: PStdBuffer)
    ensures var s := EncodeBuffer(p);
            s[0] & 0xc0 == 0x40 && PStdBuffer(s[0] & 0x20 != 0, Pid13(s[0], s[1])) == p
  {
    hide ByteOf, Pid13, Under;
    BufferPrefix(ByteOf(p.size / 256), p.scale);
    Pid13Value(ByteOf(p.size / 256), ByteOf(p.size % 256), if p.scale then 0x60 else 0x40);
  }

  /** The nested part, with its length byte. */
  function EncodeTail(t: Tail, other: byte): seq<byte> {
    match t
    case NoTail => []
    case StreamIdTail(v) => [0x81, v]
    case TrefTail(t) => [0x86, 0x80 | (other & 0x7e)] + EncodeStamp(other >> 4, t)
  }

  lemma TailBack(t: Tail, other: byte, stuffing: seq<byte>)
    requires t.StreamIdTail? ==> t.value < 0x80
    requires t.TrefTail? ==> t.t < TIMESTAMP_LIMIT
    ensures ReadSecond(!t.NoTail?, Some(EncodeTail(t, other) + stuffing)) ==
            if t.NoTail? then NoSecond else if t.StreamIdTail? then StreamId(t.value) else TrefStamp(Ok(t.t))
  {
    hide EncodeStamp, ParseStamp;
    var s := EncodeTail(t, other) + stuffing;
    if t.TrefTail? {
      TrefByte(other);
      assert s[2..7] == EncodeStamp(other >> 4, t.t);
      StampRoundTrip(other >> 4, t.t);
    } else if t.StreamIdTail? {
      StreamIdByte(t.value);
    }
  }

  lemma TrefByte(other: byte)
    ensures (0x80 | (other & 0x7e)) & 0x80 != 0 && (0x80 | (other & 0x7e)) & 0x01 == 0
  {
  }

  lemma StreamIdByte(v: byte)
    requires v < 0x80
    ensures v & 0x80 == 0 && v & 0x7f == v
  {
  }

  function Items(x: Extension, other: byte, more: seq<byte>): (items: seq<Item>)
    ensures |items| == 4
  {
    [Present(x.privateData),
     if x.pack.Some? then Got(EncodePack(x.pack.value, other, more)) else Absent,
     if x.counter.Some? then Got(EncodeCounter(x.counter.value)) else Absent,
     if x.buffer.Some? then Got(EncodeBuffer(x.buffer.value)) else Absent]
  }

  function Announced(x: Extension, other: byte): byte {
    Flags(x.privateData.Some?, x.pack.Some?, x.counter.Some?, x.buffer.Some?, !x.tail.NoTail?,
          other & 4 != 0, other & 2 != 0, other & 1 != 0)
  }

  function Plan(x: Extension): (slots: seq<Slot>)
    ensures |slots| == 4
  {
    [Slot(x.privateData.Some?, Fixed(PRIVATE_DATA_SIZE)), Slot(x.pack.Some?, Counted),
     Slot(x.counter.Some?, Fixed(SEQUENCE_COUNTER_SIZE)), Slot(x.buffer.Some?, Fixed(P_STD_BUFFER_SIZE))]
  }

  lemma PlanFits(x: Extension, other: byte, more: seq<byte>)
    requires ValidExtension(x) && PACK_MIN_SIZE + |more| < 256
    ensures AllFit(Plan(x), Items(x, other, more))
  {
    hide EncodePack, EncodeCounter, EncodeBuffer;
  }

  lemma PlanIsSlots(b: Buffer, x: Extension, other: byte)
    requires b[0] == Announced(x, other)
    ensures Slots(b) == Plan(x)
    ensures Extension2Flag(b) <==> !x.tail.NoTail?
  {
    hide Flags;
    FlagsRead(x.privateData.Some?, x.pack.Some?, x.counter.Some?, x.buffer.Some?, !x.tail.NoTail?,
              other & 4 != 0, other & 2 != 0, other & 1 != 0);
  }

  function Encode(x: Extension, other: byte, more: seq<byte>, stuffing: seq<byte>): (b: Buffer)
    requires ValidExtension(x) && PACK_MIN_SIZE + |more| < 256
    ensures b[0] == Announced(x, other)
  {
    PlanFits(x, other, more);
    [Announced(x, other)] + Write(Plan(x), Items(x, other, more)) + (EncodeTail(x.tail, other) + stuffing)
  }

  lemma EncodedItems(x: Extension, other: byte, more: seq<byte>, stuffing: seq<byte>)
    requires ValidExtension(x) && PACK_MIN_SIZE + |more| < 256
    ensures var b := Encode(x, other, more, stuffing);
            && [AsItem(PrivateData(b)), AsItem(PackHeaderBytes(b)), AsItem(SequenceCounterBytes(b)), AsItem(PStdBufferBytes(b))]
               == Items(x, other, more)
            && Rest(Slots(b), b[1..], 4) == Some(EncodeTail(x.tail, other) + stuffing)
  {
    hide Announced, Items, Plan, Slots, Walk, Rest, AsItem, PrivateData, PackHeaderBytes, SequenceCounterBytes,
      PStdBufferBytes, EncodeTail, Write;
    var b := Encode(x, other, more, stuffing);
    PlanFits(x, other, more);
    PlanIsSlots(b, x, other);
    assert b[1..] == Write(Plan(x), Items(x, other, more)) + (EncodeTail(x.tail, other) + stuffing);
    WalkWritten(Plan(x), Items(x, other, more), EncodeTail(x.tail, other) + stuffing);
    GettersAreSequential(b);
  }

  function Returned<T>(o: Option<T>): Read<T> {
    match o case None => Err(NotPresent) case Some(v) => Ok(v)
  }

  lemma FromItem(r: Read<seq<byte>>, item: Item)
    requires AsItem(r) == item
    ensures item.Got? ==> r == Ok(item.bytes)
    ensures item.Absent? ==> r == Err(NotPresent)
  {
  }

  lemma FieldsBack(x: Extension, other: byte, more: seq<byte>, stuffing: seq<byte>)
    requires ValidExtension(x) && PACK_MIN_SIZE + |more| < 256
    ensures var b := Encode(x, other, more, stuffing);
            && PrivateData(b) == Returned(x.privateData) && PackHeader(b) == Returned(x.pack)
            && SequenceCounterOf(b) == Returned(x.counter) && PStdBufferOf(b) == Returned(x.buffer)
  {
    hide Encode, AsItem, PrivateData, PackHeaderBytes, SequenceCounterBytes, PStdBufferBytes, EncodePack, ParsePack,
      EncodeCounter, EncodeBuffer, Pid13, EncodeTail, Rest, Slots;
    var b, items := Encode(x, other, more, stuffing), Items(x, other, more);
    EncodedItems(x, other, more, stuffing);
    FromItem(PrivateData(b), items[0]);
    FromItem(PackHeaderBytes(b), items[1]);
    FromItem(SequenceCounterBytes(b), items[2]);
    FromItem(PStdBufferBytes(b), items[3]);
    if x.pack.Some? { PackBack(x.pack.value, other, more); }
    if x.counter.Some? { CounterBack(x.counter.value); }
    if x.buffer.Some? { BufferBack(x.buffer.value); }
  }

  lemma NestedBack(x: Extension, other: byte, more: seq<byte>, stuffing: seq<byte>)
    requires ValidExtension(x) && PACK_MIN_SIZE + |more| < 256
    ensures var b := Encode(x, other, more, stuffing);
            && StreamIdExtension(b) == (if x.tail.StreamIdTail? then Ok(x.tail.value) else Err(NotPresent))
            && Tref(b) == (if x.tail.TrefTail? then Ok(x.tail.t) else Err(NotPresent))
  {
    hide Encode, Announced, AsItem, EncodeTail, ReadSecond, Rest, Slots, StreamIdExtension, Tref, Extension2Flag;
    var b := Encode(x, other, more, stuffing);
    EncodedItems(x, other, more, stuffing);
    PlanIsSlots(b, x, other);
    TailBack(x.tail, other, stuffing);
    SecondIsSequential(b);
  }

  /** Encoding then decoding is the identity, for every combination of the parts. */
  lemma ExtensionRoundTrip(x: Extension, other: byte, more: seq<byte>, stuffing: seq<byte>)
    requires ValidExtension(x) && PACK_MIN_SIZE + |more| < 256
    ensures var b := Encode(x, other, more, stuffing);
            && PrivateData(b) == Returned(x.privateData) && PackHeader(b) == Returned(x.pack)
            && SequenceCounterOf(b) == Returned(x.counter) && PStdBufferOf(b) == Returned(x.buffer)
            && StreamIdExtension(b) == (if x.tail.StreamIdTail? then Ok(x.tail.value) else Err(NotPresent))
            && Tref(b) == (if x.tail.TrefTail? then Ok(x.tail.t) else Err(NotPresent))
  {
    hide *;
    FieldsBack(x, other, more, stuffing);
    NestedBack(x, other, more, stuffing);
  }

  // ----- a pack field too short for a pack header -----

  /** When the pack header lacks data: its field does, or its field is there and is shorter than
      a pack header. The first complaint is about the buffer and is right; the second counts
      in the field, and no bytes that follow can help. */
  lemma PackHeaderLacks(b: Buffer, more: seq<byte>)
    ensures LacksData(PackHeader(b)) <==>
              LacksData(PackHeaderBytes(b)) || (PackHeaderBytes(b).Ok? && |PackHeaderBytes(b).value| < PACK_MIN_SIZE)
    ensures LacksData(PackHeaderBytes(b)) ==> AsksRightly(PackHeader(b), |b|, PackHeader(b + more), |more|)
    ensures PackHeaderBytes(b).Ok? && |PackHeaderBytes(b).value| < PACK_MIN_SIZE ==>
              PackHeader(b) == PackHeader(b + more) == Err(PesHeaders.NotEnoughData(PACK_MIN_SIZE, |PackHeaderBytes(b).value|))
  {
    hide PackHeaderBytes, ParseEscr, MuxRate;
    FirstAsk(b, more);
    PackBytesStay(b, more);
    PackBytesWithin(b + more);
  }

  lemma PackBytesStay(b: Buffer, more: seq<byte>)
    ensures PackHeaderBytes(b).Ok? ==> PackHeaderBytes(b + more) == PackHeaderBytes(b)
  {
    hide PackHeaderFlag, PrivateDataFlag;
    SameFlags(b, more);
    EndAsks(b, more);
    if PackHeaderBytes(b).Ok? {
      var from, to := PrivateDataEnd(b) + 1, PackHeaderEnd(b).value;
      assert (b + more)[from..to] == b[from..to];
    }
  }

  lemma PackBytesWithin(b: Buffer)
    ensures PackHeaderBytes(b).Ok? ==> |PackHeaderBytes(b).value| < |b|
  {
    hide PackHeaderFlag, PrivateDataFlag;
  }

  /** For example, a field of one byte in a buffer of five: a length of one is complained of. */
  lemma ShortPackField()
    ensures PackHeader([0x40, 0x01, 0x00, 0x00, 0x00]) == Err(PesHeaders.NotEnoughData(14, 1))
  {
  }

  // ----- refusals -----

  /** Which fields are refused for their marker bits, and which for their absence. */
  lemma FieldsRefused(b: Buffer)
    ensures SequenceCounterBytes(b).Ok? ==>
              var s := SequenceCounterBytes(b).value;
              (SequenceCounterOf(b).Ok? <==> s[0] & 0x80 != 0 && s[1] & 0x80 != 0) &&
              (SequenceCounterOf(b).Err? ==> SequenceCounterOf(b) == Err(PesHeaders.PesError.MarkerBitNotSet))
    ensures PStdBufferBytes(b).Ok? ==>
              var s := PStdBufferBytes(b).value;
              (PStdBufferOf(b).Ok? <==> s[0] & 0xc0 == 0x40) &&
              (PStdBufferOf(b).Err? ==> PStdBufferOf(b) == Err(PesHeaders.PesError.MarkerBitNotSet))
    ensures b[0] & 0x80 == 0 ==> PrivateData(b) == Err(PesHeaders.FieldNotPresent)
    ensures b[0] & 0x40 == 0 ==> PackHeader(b) == Err(PesHeaders.FieldNotPresent)
    ensures b[0] & 0x20 == 0 ==> SequenceCounterOf(b) == Err(PesHeaders.FieldNotPresent)
    ensures b[0] & 0x10 == 0 ==> PStdBufferOf(b) == Err(PesHeaders.FieldNotPresent)
    ensures b[0] & 0x08 == 0 ==> StreamIdExtension(b) == Err(PesHeaders.FieldNotPresent) && Tref(b) == Err(PesHeaders.FieldNotPresent)
  {
    hide Slice, PackHeaderEnd, SequenceCounterEnd, PStdBufferEnd;
  }

  /** Which bytes are a pack header. */
  lemma PackRule(s: seq<byte>)
    ensures |s| < 14 ==> ParsePack(s) == Err(PesHeaders.NotEnoughData(14, |s|))
    ensures |s| >= 14 ==>
              (ParsePack(s).Ok? <==> s[0] == 0 && s[1] == 0 && s[2] == 1 && s[3] == 0xba && s[4] & 0xc0 == 0x40) &&
              (ParsePack(s).Err? ==> ParsePack(s) == Err(PesHeaders.PesError.MarkerBitNotSet))
  {
    hide ParseEscr, MuxRate;
    if |s| >= 14 { TopBits(s[4]); }
  }

  lemma TopBits(b: byte)
    ensures b >> 6 == 1 <==> b & 0xc0 == 0x40
  {
  }
}
