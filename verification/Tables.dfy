/** The lists inside tables: PAT entries (src/psi/pat.rs), PMT streams (src/psi/pmt.rs) and
    descriptors (src/descriptor/mod.rs). */
module Tables {
  import opened Bytes

  // ----- fields -----

  lemma LengthRoundTrip(n: nat, other: byte)
    requires n < 4096
    ensures Length12(Under(ByteOf(n / 256), 0x0f, other), ByteOf(n % 256)) == n
  {
    hide Length12, Under, ByteOf;
    Length12Value(ByteOf(n / 256), ByteOf(n % 256), other);
  }

  lemma PidRoundTrip(p: Pid, other: byte)
    ensures Pid13(Under(ByteOf(p / 256), 0x1f, other), ByteOf(p % 256)) == p
  {
    hide Pid13, Under, ByteOf;
    Pid13Value(ByteOf(p / 256), ByteOf(p % 256), other);
  }

  // ----- program association entries -----

  datatype ProgramEntry =
    | Network(pid: Pid)
    | Program(number: nat, pid: Pid)

  datatype PatError = PatNotEnoughData(actual: nat)

  type PatItem = Result<ProgramEntry, PatError>

  function ParseProgram(d: seq<byte>): ProgramEntry
    requires |d| == 4
  {
    var number := Number16(d[0], d[1]);
    var pid := Pid13(d[2], d[3]);
    if number == 0 then Network(pid) else Program(number, pid)
  }

  /** What iterating over the programs of a PAT section yields. */
  function Programs(data: seq<byte>): seq<PatItem> {
    if data == [] then []
    else if |data| < 4 then [Err(PatNotEnoughData(|data|))]
    else [Ok(ParseProgram(data[..4]))] + Programs(data[4..])
  }

  class ProgramIter {
    var buf: seq<byte>

    constructor (data: seq<byte>)
      ensures buf == data
    {
      buf := data;
    }

    method Next() returns (item: Option<PatItem>)
      modifies this
      ensures item.None? ==> old(buf) == [] == buf
      ensures item.Some? ==> |buf| < |old(buf)| && Programs(old(buf)) == [item.value] + Programs(buf)
    {
      if buf == [] {
        return None;
      }
      if |buf| < 4 {
        item := Some(Err(PatNotEnoughData(|buf|)));
        buf := [];
      } else {
        item := Some(Ok(ParseProgram(buf[..4])));
        buf := buf[4..];
      }
    }
  }

  ghost predicate ValidEntry(e: ProgramEntry) {
    e.Program? ==> 0 < e.number < 65536
  }

  /** The four bytes of an entry; `other` supplies the reserved bits. */
  function EncodeProgram(e: ProgramEntry, other: byte): (d: seq<byte>)
    requires ValidEntry(e)
    ensures |d| == 4
  {
    var number := if e.Program? then e.number else 0;
    [ByteOf(number / 256), ByteOf(number % 256), Under(ByteOf(e.pid / 256), 0x1f, other), ByteOf(e.pid % 256)]
  }

  lemma ProgramRoundTrip(e: ProgramEntry, other: byte)
    requires ValidEntry(e)
    ensures ParseProgram(EncodeProgram(e, other)) == e
  {
    hide Number16, Pid13, Under, ByteOf;
    var number := if e.Program? then e.number else 0;
    Number16Bytes(number);
    PidRoundTrip(e.pid, other);
  }

  function EncodePrograms(es: seq<ProgramEntry>, other: byte): seq<byte>
    requires forall e :: e in es ==> ValidEntry(e)
  {
    if es == [] then [] else EncodeProgram(es[0], other) + EncodePrograms(es[1..], other)
  }

  lemma {:induction false} ProgramsLength(es: seq<ProgramEntry>, other: byte)
    requires forall e :: e in es ==> ValidEntry(e)
    ensures |EncodePrograms(es, other)| == 4 * |es|
  {
    hide EncodeProgram;
    if es != [] {
      ProgramsLength(es[1..], other);
    }
  }

  function Accepted<T, E>(items: seq<T>): (r: seq<Result<T, E>>)
    ensures |r| == |items| && forall i :: 0 <= i < |items| ==> r[i] == Ok(items[i])
  {
    seq(|items|, i requires 0 <= i < |items| => Ok(items[i]))
  }

  /** A list of entries is read back, and an incomplete entry after it is one error. */
  lemma {:induction false} ProgramsRoundTrip(es: seq<ProgramEntry>, other: byte, rest: seq<byte>)
    requires forall e :: e in es ==> ValidEntry(e)
    requires |rest| < 4
    ensures Programs(EncodePrograms(es, other) + rest)
         == Accepted<ProgramEntry, PatError>(es) + (if rest == [] then [] else [Err(PatNotEnoughData(|rest|))])
  {
    hide EncodeProgram, ParseProgram;
    if es == [] {
      assert EncodePrograms(es, other) + rest == rest;
    } else {
      var head := EncodeProgram(es[0], other);
      var tail := EncodePrograms(es[1..], other) + rest;
      assert EncodePrograms(es, other) + rest == head + tail;
      assert (head + tail)[..4] == head && (head + tail)[4..] == tail;
      ProgramRoundTrip(es[0], other);
      ProgramsRoundTrip(es[1..], other, rest);
      assert Accepted<ProgramEntry, PatError>(es) == [Ok(es[0])] + Accepted<ProgramEntry, PatError>(es[1..]);
    }
  }

  /** Any bytes at all: one entry for every four, and an error exactly for a remainder. */
  lemma {:induction false} ProgramsSplit(data: seq<byte>)
    ensures |Programs(data)| == (|data| + 3) / 4
    ensures forall i :: 0 <= i < |data| / 4 ==> Programs(data)[i] == Ok(ParseProgram(data[4 * i..4 * i + 4]))
    ensures |data| % 4 != 0 ==> Programs(data)[|data| / 4] == Err(PatNotEnoughData(|data| % 4))
    decreases |data|
  {
    hide ParseProgram;
    if |data| >= 4 {
      var rest := data[4..];
      ProgramsSplit(rest);
      forall i | 0 <= i < |data| / 4
        ensures Programs(data)[i] == Ok(ParseProgram(data[4 * i..4 * i + 4]))
      {
        if i > 0 {
          assert rest[4 * (i - 1)..4 * (i - 1) + 4] == data[4 * i..4 * i + 4];
        }
      }
    }
  }

  // ----- streams of a program map section -----

  datatype PmtField = ProgramMapSection | DescriptorField | StreamInfoField | StreamInfoDescriptors

  datatype PmtError = PmtNotEnoughData(field: PmtField, expected: nat, actual: nat)

  datatype StreamInfo = StreamInfo(streamType: byte, pid: Pid, descriptors: seq<byte>)

  datatype PmtSection = PmtSection(pcrPid: Pid, programInfo: seq<byte>, streams: seq<byte>)

  type PmtItem = Result<StreamInfo, PmtError>

  /** A stream and the number of bytes it takes. */
  function ParseStream(data: seq<byte>): (r: Result<(StreamInfo, nat), PmtError>)
    ensures r.Ok? ==> 5 <= r.value.1 <= |data|
  {
    if |data| < 5 then Err(PmtNotEnoughData(StreamInfoField, 5, |data|))
    else
      var end := 5 + Length12(data[3], data[4]);
      if end > |data| then Err(PmtNotEnoughData(StreamInfoDescriptors, end, |data|))
      else Ok((StreamInfo(data[0], Pid13(data[1], data[2]), data[5..end]), end))
  }

  /** What iterating over the streams of a PMT section yields. */
  function Streams(data: seq<byte>): seq<PmtItem>
    decreases |data|
  {
    if data == [] then []
    else
      match ParseStream(data)
      case Err(e) => [Err(e)]
      case Ok((stream, taken)) => [Ok(stream)] + Streams(data[taken..])
  }

  /** `PmtSection::from_bytes` and the slices its iterators start from. */
  function ParsePmt(data: seq<byte>): Result<PmtSection, PmtError> {
    if |data| < 4 then Err(PmtNotEnoughData(ProgramMapSection, 4, |data|))
    else
      var expected := Length12(data[2], data[3]) + 4;
      if |data| < expected then Err(PmtNotEnoughData(DescriptorField, expected, |data|))
      else Ok(PmtSection(Pid13(data[0], data[1]), data[4..expected], data[expected..]))
  }

  class StreamInfoIter {
    var buf: seq<byte>

    constructor (data: seq<byte>)
      ensures buf == data
    {
      buf := data;
    }

    method Next() returns (item: Option<PmtItem>)
      modifies this
      ensures item.None? ==> old(buf) == [] == buf
      ensures item.Some? ==> |buf| < |old(buf)| && Streams(old(buf)) == [item.value] + Streams(buf)
    {
      if buf == [] {
        return None;
      }
      match ParseStream(buf)
      case Ok((stream, taken)) =>
        buf := buf[taken..];
        item := Some(Ok(stream));
      case Err(e) =>
        buf := [];
        item := Some(Err(e));
    }
  }

  function EncodeStream(s: StreamInfo, other: byte): (d: seq<byte>)
    requires |s.descriptors| < 4096
    ensures |d| == 5 + |s.descriptors|
  {
    var n := |s.descriptors|;
    [s.streamType, Under(ByteOf(s.pid / 256), 0x1f, other), ByteOf(s.pid % 256),
     Under(ByteOf(n / 256), 0x0f, other), ByteOf(n % 256)] + s.descriptors
  }

  lemma StreamParsed(streamType: byte, p1: byte, p2: byte, l1: byte, l2: byte, descriptors: seq<byte>, rest: seq<byte>)
    requires Length12(l1, l2) == |descriptors|
    ensures ParseStream([streamType, p1, p2, l1, l2] + descriptors + rest)
         == Ok((StreamInfo(streamType, Pid13(p1, p2), descriptors), 5 + |descriptors|))
  {
    hide Length12, Pid13;
    var data := [streamType, p1, p2, l1, l2] + descriptors + rest;
    assert data[5..5 + |descriptors|] == descriptors;
  }

  lemma StreamRoundTrip(s: StreamInfo, other: byte, rest: seq<byte>)
    requires |s.descriptors| < 4096
    ensures ParseStream(EncodeStream(s, other) + rest) == Ok((s, |EncodeStream(s, other)|))
  {
    hide Length12, Pid13, Under, ByteOf, ParseStream;
    var n := |s.descriptors|;
    LengthRoundTrip(n, other);
    PidRoundTrip(s.pid, other);
    StreamParsed(s.streamType, Under(ByteOf(s.pid / 256), 0x1f, other), ByteOf(s.pid % 256),
                 Under(ByteOf(n / 256), 0x0f, other), ByteOf(n % 256), s.descriptors, rest);
  }

  function EncodeStreams(ss: seq<StreamInfo>, other: byte): seq<byte>
    requires forall s :: s in ss ==> |s.descriptors| < 4096
  {
    if ss == [] then [] else EncodeStream(ss[0], other) + EncodeStreams(ss[1..], other)
  }

  lemma {:induction false} StreamsRoundTrip(ss: seq<StreamInfo>, other: byte)
    requires forall s :: s in ss ==> |s.descriptors| < 4096
    ensures Streams(EncodeStreams(ss, other)) == Accepted<StreamInfo, PmtError>(ss)
  {
    hide EncodeStream, ParseStream;
    if ss != [] {
      var head := EncodeStream(ss[0], other);
      var tail := EncodeStreams(ss[1..], other);
      StreamRoundTrip(ss[0], other, tail);
      assert (head + tail)[|head|..] == tail;
      StreamsRoundTrip(ss[1..], other);
      assert Accepted<StreamInfo, PmtError>(ss) == [Ok(ss[0])] + Accepted<StreamInfo, PmtError>(ss[1..]);
    }
  }

  function EncodePmt(pcrPid: Pid, programInfo: seq<byte>, ss: seq<StreamInfo>, other: byte): seq<byte>
    requires |programInfo| < 4096
    requires forall s :: s in ss ==> |s.descriptors| < 4096
  {
    var n := |programInfo|;
    [Under(ByteOf(pcrPid / 256), 0x1f, other), ByteOf(pcrPid % 256), Under(ByteOf(n / 256), 0x0f, other), ByteOf(n % 256)]
    + programInfo + EncodeStreams(ss, other)
  }

  /** A whole program map section body is read back, whatever its reserved bits. */
  lemma PmtRoundTrip(pcrPid: Pid, programInfo: seq<byte>, ss: seq<StreamInfo>, other: byte)
    requires |programInfo| < 4096
    requires forall s :: s in ss ==> |s.descriptors| < 4096
    ensures var r := ParsePmt(EncodePmt(pcrPid, programInfo, ss, other));
            && r == Ok(PmtSection(pcrPid, programInfo, EncodeStreams(ss, other)))
            && Streams(r.value.streams) == Accepted<StreamInfo, PmtError>(ss)
  {
    hide Length12, Pid13, Under, ByteOf, EncodeStreams;
    var n := |programInfo|;
    LengthRoundTrip(n, other);
    PidRoundTrip(pcrPid, other);
    StreamsRoundTrip(ss, other);
    var data := EncodePmt(pcrPid, programInfo, ss, other);
    assert data[4..4 + n] == programInfo && data[4 + n..] == EncodeStreams(ss, other);
  }

  /** How any bytes divide into stream entries, and what does not divide. */
  function StreamSlices(data: seq<byte>): (seq<seq<byte>>, seq<byte>)
    decreases |data|
  {
    if data == [] || ParseStream(data).Err? then ([], data)
    else
      var taken := ParseStream(data).value.1;
      var rest := StreamSlices(data[taken..]);
      ([data[..taken]] + rest.0, rest.1)
  }

  lemma ParseStreamPrefix(data: seq<byte>)
    requires ParseStream(data).Ok?
    ensures ParseStream(data[..ParseStream(data).value.1]) == ParseStream(data)
  {
    hide Length12, Pid13;
    var taken := ParseStream(data).value.1;
    assert data[..taken][5..taken] == data[5..taken];
  }

  lemma {:induction false} SlicesCover(data: seq<byte>)
    ensures Concat(StreamSlices(data).0) + StreamSlices(data).1 == data
    decreases |data|
  {
    hide ParseStream;
    if data != [] && ParseStream(data).Ok? {
      var taken := ParseStream(data).value.1;
      SlicesCover(data[taken..]);
      var (slices, rest) := StreamSlices(data[taken..]);
      assert StreamSlices(data).0[1..] == slices;
      assert data == data[..taken] + (Concat(slices) + rest);
    }
  }

  ghost predicate IsEntry(slice: seq<byte>, item: PmtItem) {
    var r := ParseStream(slice);
    r.Ok? && r.value.1 == |slice| && item == Ok(r.value.0)
  }

  /** Any bytes at all are contiguous entries followed by at most one framing error: the
      slices cover the data, each is one entry, and an error stands for what is left. */
  lemma {:induction false} StreamsSplit(data: seq<byte>)
    ensures var (slices, rest) := StreamSlices(data);
            && Concat(slices) + rest == data
            && |Streams(data)| == |slices| + (if rest == [] then 0 else 1)
            && (forall i :: 0 <= i < |slices| ==> IsEntry(slices[i], Streams(data)[i]))
            && (rest != [] ==> ParseStream(rest).Err? && Streams(data)[|slices|] == Err(ParseStream(rest).error))
    decreases |data|
  {
    hide ParseStream, IsEntry, Concat;
    SlicesCover(data);
    if data != [] && ParseStream(data).Ok? {
      var taken := ParseStream(data).value.1;
      StreamsSplit(data[taken..]);
      FirstEntry(data);
    }
  }

  lemma FirstEntry(data: seq<byte>)
    requires ParseStream(data).Ok?
    ensures IsEntry(data[..ParseStream(data).value.1], Ok(ParseStream(data).value.0))
  {
    hide ParseStream;
    ParseStreamPrefix(data);
  }

  // ----- descriptors -----

  datatype Descriptor = Descriptor(tag: byte, payload: seq<byte>)

  datatype DescriptorError =
    | NotEnoughData(tag: byte, actual: nat, expected: nat)
    | TagTooLongForBuffer(taglen: nat, buflen: nat)
    | BufferTooShort(buflen: nat)

  type DescriptorItem = Result<Descriptor, DescriptorError>

  /** The length checks that every generated `from_bytes` begins with. */
  function ParseDescriptor(buf: seq<byte>): DescriptorItem {
    if |buf| < 2 then Err(BufferTooShort(|buf|))
    else
      var end := buf[1] as nat + 2;
      if end > |buf| then Err(TagTooLongForBuffer(buf[1] as nat, |buf|))
      else Ok(Descriptor(buf[0], buf[2..end]))
  }

  /** What iterating over descriptors yields. */
  function Descriptors(data: seq<byte>): seq<DescriptorItem>
    decreases |data|
  {
    if data == [] then []
    else if |data| < 2 then [Err(BufferTooShort(|data|))]
    else
      var len := data[1] as nat;
      if len > |data| - 2 then [Err(NotEnoughData(data[0], |data| - 2, len))]
      else [ParseDescriptor(data[..len + 2])] + Descriptors(data[len + 2..])
  }

  /** The three things that can be at the front. */
  lemma DescriptorsFront(data: seq<byte>)
    requires data != []
    ensures |data| < 2 ==> Descriptors(data) == [Err(BufferTooShort(|data|))] + Descriptors([])
    ensures |data| >= 2 && data[1] as nat > |data| - 2 ==>
              Descriptors(data) == [Err(NotEnoughData(data[0], |data| - 2, data[1] as nat))] + Descriptors([])
    ensures |data| >= 2 && data[1] as nat <= |data| - 2 ==>
              var end := data[1] as nat + 2;
              Descriptors(data) == [ParseDescriptor(data[..end])] + Descriptors(data[end..])
  {
    hide ParseDescriptor;
  }

  class DescriptorIter {
    var buf: seq<byte>

    constructor (data: seq<byte>)
      ensures buf == data
    {
      buf := data;
    }

    method Next() returns (item: Option<DescriptorItem>)
      modifies this
      ensures item.None? ==> old(buf) == [] == buf
      ensures item.Some? ==> |buf| < |old(buf)| && Descriptors(old(buf)) == [item.value] + Descriptors(buf)
    {
      hide ParseDescriptor, Descriptors;
      if buf == [] {
        return None;
      }
      DescriptorsFront(buf);
      if |buf| < 2 {
        item := Some(Err(BufferTooShort(|buf|)));
        buf := [];
      } else {
        var tag := buf[0];
        var len := buf[1] as nat;
        var remaining := |buf| - 2;
        if len > remaining {
          item := Some(Err(NotEnoughData(tag, remaining, len)));
          buf := [];
        } else {
          item := Some(ParseDescriptor(buf[..len + 2]));
          buf := buf[len + 2..];
        }
      }
    }
  }

  function EncodeDescriptor(d: Descriptor): (e: seq<byte>)
    requires |d.payload| < 256
    ensures |e| == 2 + |d.payload|
  {
    [d.tag, ByteOf(|d.payload|)] + d.payload
  }

  function EncodeDescriptors(ds: seq<Descriptor>): seq<byte>
    requires forall d :: d in ds ==> |d.payload| < 256
  {
    if ds == [] then [] else EncodeDescriptor(ds[0]) + EncodeDescriptors(ds[1..])
  }

  lemma DescriptorParsed(tag: byte, len: byte, payload: seq<byte>, rest: seq<byte>)
    requires len as nat == |payload|
    ensures Descriptors([tag, len] + payload + rest) == [Ok(Descriptor(tag, payload))] + Descriptors(rest)
  {
    var e := [tag, len] + payload;
    var data := e + rest;
    assert data[..|payload| + 2] == e && data[|payload| + 2..] == rest;
    assert e[2..|payload| + 2] == payload;
    assert ParseDescriptor(e) == Ok(Descriptor(tag, payload));
  }

  lemma DescriptorRead(d: Descriptor, rest: seq<byte>)
    requires |d.payload| < 256
    ensures Descriptors(EncodeDescriptor(d) + rest) == [Ok(d)] + Descriptors(rest)
  {
    hide ByteOf, Descriptors;
    DescriptorParsed(d.tag, ByteOf(|d.payload|), d.payload, rest);
  }

  /** A list of descriptors is read back. */
  lemma {:induction false} DescriptorsRoundTrip(ds: seq<Descriptor>)
    requires forall d :: d in ds ==> |d.payload| < 256
    ensures Descriptors(EncodeDescriptors(ds)) == Accepted<Descriptor, DescriptorError>(ds)
  {
    if ds != [] {
      hide EncodeDescriptor, Descriptors;
      DescriptorRead(ds[0], EncodeDescriptors(ds[1..]));
      DescriptorsRoundTrip(ds[1..]);
      assert Accepted<Descriptor, DescriptorError>(ds) == [Ok(ds[0])] + Accepted<Descriptor, DescriptorError>(ds[1..]);
    }
  }

  /** A tail that cannot be a descriptor. */
  predicate Truncated(rest: seq<byte>) {
    |rest| == 1 || (|rest| >= 2 && rest[1] as nat > |rest| - 2)
  }

  /** How any bytes divide into descriptors, and what does not divide. */
  function DescriptorList(data: seq<byte>): (r: (seq<Descriptor>, seq<byte>))
    ensures forall d :: d in r.0 ==> |d.payload| < 256
    decreases |data|
  {
    if data == [] || Truncated(data) then ([], data)
    else
      var end := data[1] as nat + 2;
      var rest := DescriptorList(data[end..]);
      ([Descriptor(data[0], data[2..end])] + rest.0, rest.1)
  }

  lemma DescriptorAtFront(data: seq<byte>)
    requires data != [] && !Truncated(data)
    ensures var end := data[1] as nat + 2;
            data == EncodeDescriptor(Descriptor(data[0], data[2..end])) + data[end..]
  {
    ByteOfNat(data[1]);
    var end := data[1] as nat + 2;
    assert data == [data[0], data[1]] + data[2..end] + data[end..];
  }

  /** A descriptor before others that are followed by something. */
  lemma EncodeCons(d: Descriptor, more: seq<Descriptor>, rest: seq<byte>)
    requires |d.payload| < 256 && forall m :: m in more ==> |m.payload| < 256
    ensures EncodeDescriptors([d] + more) + rest == EncodeDescriptor(d) + (EncodeDescriptors(more) + rest)
  {
    hide EncodeDescriptor;
    assert ([d] + more)[1..] == more;
    assert (EncodeDescriptor(d) + EncodeDescriptors(more)) + rest == EncodeDescriptor(d) + (EncodeDescriptors(more) + rest);
  }

  lemma {:induction false} DescriptorsCover(data: seq<byte>)
    ensures EncodeDescriptors(DescriptorList(data).0) + DescriptorList(data).1 == data
    decreases |data|
  {
    if data == [] || Truncated(data) {
      assert [] + data == data;
    } else {
      hide EncodeDescriptor, EncodeDescriptors, Truncated, DescriptorList;
      var d, after := FrontOf(data);
      DescriptorsCover(after);
      EncodeCons(d, DescriptorList(after).0, DescriptorList(after).1);
    }
  }

  lemma TailYields(rest: seq<byte>)
    requires rest == [] || Truncated(rest)
    ensures rest == [] ==> Descriptors(rest) == []
    ensures rest != [] ==> Descriptors(rest) == [Err(if |rest| == 1 then BufferTooShort(1) else NotEnoughData(rest[0], |rest| - 2, rest[1] as nat))]
  {
  }

  lemma AcceptedCons(d: Descriptor, more: seq<Descriptor>)
    ensures Accepted<Descriptor, DescriptorError>([d] + more) == [Ok(d)] + Accepted<Descriptor, DescriptorError>(more)
  {
  }

  lemma {:induction false} DescriptorsYield(data: seq<byte>)
    ensures var (ds, rest) := DescriptorList(data);
            Descriptors(data) == Accepted<Descriptor, DescriptorError>(ds) + Descriptors(rest)
    decreases |data|
  {
    hide EncodeDescriptor, Descriptors, Truncated, Accepted;
    if data == [] || Truncated(data) {
      NoneAccepted();
      assert [] + Descriptors(data) == Descriptors(data);
    } else {
      var d, after := FrontOf(data);
      DescriptorsYield(after);
      var (more, rest) := DescriptorList(after);
      DescriptorRead(d, after);
      AcceptedCons(d, more);
      assert [Ok(d)] + (Accepted<Descriptor, DescriptorError>(more) + Descriptors(rest))
          == ([Ok(d)] + Accepted<Descriptor, DescriptorError>(more)) + Descriptors(rest);
    }
  }

  lemma NoneAccepted()
    ensures Accepted<Descriptor, DescriptorError>([]) == []
  {
  }

  lemma {:induction false} TailIsTruncated(data: seq<byte>)
    ensures DescriptorList(data).1 == [] || Truncated(DescriptorList(data).1)
    decreases |data|
  {
    hide EncodeDescriptor, Truncated;
    if data != [] && !Truncated(data) {
      var d, after := FrontOf(data);
      TailIsTruncated(after);
    }
  }

  /** Any bytes at all are descriptors followed by a tail, empty or truncated, and encode to
      exactly those bytes; iteration yields the descriptors and one error for such a tail. */
  lemma DescriptorsSplit(data: seq<byte>)
    ensures var (ds, rest) := DescriptorList(data);
            && EncodeDescriptors(ds) + rest == data
            && (rest == [] || Truncated(rest))
            && Descriptors(data) == Accepted<Descriptor, DescriptorError>(ds) + Descriptors(rest)
            && (rest == [] ==> Descriptors(rest) == [])
            && (rest != [] ==>
                  Descriptors(rest) == [Err(if |rest| == 1 then BufferTooShort(1) else NotEnoughData(rest[0], |rest| - 2, rest[1] as nat))])
  {
    hide EncodeDescriptors, Descriptors, Truncated, Accepted, DescriptorList;
    DescriptorsCover(data);
    DescriptorsYield(data);
    TailIsTruncated(data);
    TailYields(DescriptorList(data).1);
  }

  lemma FrontOf(data: seq<byte>) returns (d: Descriptor, after: seq<byte>)
    requires data != [] && !Truncated(data)
    ensures |d.payload| < 256 && |after| < |data| && data == EncodeDescriptor(d) + after
    ensures DescriptorList(data) == ([d] + DescriptorList(after).0, DescriptorList(after).1)
  {
    hide EncodeDescriptor;
    var end := data[1] as nat + 2;
    d, after := Descriptor(data[0], data[2..end]), data[end..];
    DescriptorAtFront(data);
  }

  // ----- what is wrong with what is not read -----

  /** A descriptor on its own: its payload, or which of two things is wrong. */
  lemma DescriptorRule(buf: seq<byte>)
    ensures |buf| < 2 ==> ParseDescriptor(buf) == Err(BufferTooShort(|buf|))
    ensures |buf| >= 2 && buf[1] as nat > |buf| - 2 ==> ParseDescriptor(buf) == Err(TagTooLongForBuffer(buf[1] as nat, |buf|))
    ensures |buf| >= 2 && buf[1] as nat <= |buf| - 2 ==>
              ParseDescriptor(buf) == Ok(Descriptor(buf[0], buf[2..buf[1] as nat + 2]))
  {
  }

  lemma LengthOf(hi: byte, lo: byte)
    ensures Length12(hi, lo) == (hi & 0x0f) as nat * 256 + lo as nat
  {
  }

  /** A stream entry that is cut short in its header, or in its descriptors. */
  lemma StreamRule(data: seq<byte>)
    ensures |data| < 5 ==> ParseStream(data) == Err(PmtNotEnoughData(StreamInfoField, 5, |data|))
    ensures |data| >= 5 ==>
              var end := 5 + (data[3] & 0x0f) as nat * 256 + data[4] as nat;
              (ParseStream(data).Ok? <==> end <= |data|) &&
              (end > |data| ==> ParseStream(data) == Err(PmtNotEnoughData(StreamInfoDescriptors, end, |data|)))
  {
    hide Length12;
    if |data| >= 5 { LengthOf(data[3], data[4]); }
  }

  /** And a program map that is. */
  lemma PmtBodyRule(data: seq<byte>)
    ensures |data| < 4 ==> ParsePmt(data) == Err(PmtNotEnoughData(ProgramMapSection, 4, |data|))
    ensures |data| >= 4 ==>
              var end := (data[2] & 0x0f) as nat * 256 + data[3] as nat + 4;
              (ParsePmt(data).Ok? <==> end <= |data|) &&
              (end > |data| ==> ParsePmt(data) == Err(PmtNotEnoughData(DescriptorField, end, |data|)))
  {
    hide Length12;
    if |data| >= 4 { LengthOf(data[2], data[3]); }
  }

  /** A list of streams is read back, and what cannot be an entry after it is one error. */
  lemma {:induction false} StreamsThenRest(ss: seq<StreamInfo>, other: byte, rest: seq<byte>)
    requires forall s :: s in ss ==> |s.descriptors| < 4096
    requires rest != [] && ParseStream(rest).Err?
    ensures Streams(EncodeStreams(ss, other) + rest) == Accepted<StreamInfo, PmtError>(ss) + [Err(ParseStream(rest).error)]
  {
    hide EncodeStream, ParseStream;
    if ss == [] {
      assert EncodeStreams(ss, other) + rest == rest;
      assert Accepted<StreamInfo, PmtError>([]) == [];
    } else {
      var head, tail := EncodeStream(ss[0], other), EncodeStreams(ss[1..], other) + rest;
      assert EncodeStreams(ss, other) + rest == head + tail;
      StreamRoundTrip(ss[0], other, tail);
      assert (head + tail)[|head|..] == tail;
      StreamsThenRest(ss[1..], other, rest);
      assert Accepted<StreamInfo, PmtError>(ss) == [Ok(ss[0])] + Accepted<StreamInfo, PmtError>(ss[1..]);
    }
  }
}
