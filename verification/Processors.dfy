/** What stands between the framer and a table processor: version de-duplication, then the CRC
    check (src/psi/mod.rs). */
module Processors {
  import opened Bytes
  import opened Packets
  import opened Sections
  import opened Framers
  import opened Crc
  import opened Demultiplexer

  // ----- what the framer guarantees of a delivery -----

  /** The section-syntax framer's deliveries: the facts every later assertion and slice needs. */
  ghost predicate GoodEvent(e: Event) {
    e.Deliver? ==>
      && |e.data| == HEADER_SIZE + e.header.length
      && TABLE_SYNTAX_HEADER_SIZE <= e.header.length <= SECTION_LIMIT
      && e.header == ParseHeader(e.data[..HEADER_SIZE])
      && e.header.syntax
  }

  ghost predicate AllGood(events: seq<Event>) {
    forall e :: e in events ==> GoodEvent(e)
  }

  lemma AllGoodConcat(a: seq<Event>, b: seq<Event>)
    requires AllGood(a) && AllGood(b)
    ensures AllGood(a + b)
  {
    hide GoodEvent;
  }

  lemma StepGood(s: Scan, b: byte)
    requires WellFormed(SectionSyntax, s)
    ensures AllGood(Step(SectionSyntax, s, b).1)
  {
    hide ParseHeader;
    match s {
      case Collecting(buf, target) =>
        var full := buf + [b];
        assert |buf| >= HEADER_SIZE ==> full[..HEADER_SIZE] == buf[..HEADER_SIZE];
        assert |full| == HEADER_SIZE ==> full[..HEADER_SIZE] == full;
      case Header(h) =>
        assert |h| + 1 == HEADER_SIZE ==> (h + [b])[..HEADER_SIZE] == h + [b];
      case _ =>
    }
  }

  lemma {:induction false} RunGood(s: Scan, bytes: seq<byte>)
    requires WellFormed(SectionSyntax, s)
    ensures AllGood(Run(SectionSyntax, s, bytes).1)
    decreases |bytes|
  {
    hide Step, WellFormed, GoodEvent;
    if bytes != [] {
      StepGood(s, bytes[0]);
      RunGood(Step(SectionSyntax, s, bytes[0]).0, bytes[1..]);
      AllGoodConcat(Step(SectionSyntax, s, bytes[0]).1, Run(SectionSyntax, Step(SectionSyntax, s, bytes[0]).0, bytes[1..]).1);
    }
  }

  lemma IdleWellFormed()
    ensures WellFormed(SectionSyntax, Idle)
  {
  }

  lemma ConsumeGood(l: Link, unitStart: bool, payload: Payload)
    requires Ready(SectionSyntax, l)
    ensures AllGood(Consume(SectionSyntax, l, unitStart, payload).1)
  {
    hide Run, WellFormed;
    assert WellFormed(SectionSyntax, Idle) by { IdleWellFormed(); }
    if payload.Ok? && payload.value.Some? {
      var bytes := payload.value.value;
      if !unitStart {
        RunGood(l.scan, bytes);
      } else if bytes != [] && bytes[0] as nat <= |bytes| - 1 {
        var pointer, data := bytes[0] as nat, bytes[1..];
        RunGood(l.scan, data[..pointer]);
        RunGood(Idle, data[pointer..]);
      }
    }
  }

  // ----- de-duplication and the CRC check -----

  /** `version_number` of the table syntax header. */
  function Version(data: seq<byte>): byte
    requires |data| >= 6
  {
    (data[5] >> 1) & 0x1f
  }

  datatype Output =
    | Table(header: SectionHeader, data: seq<byte>)
    | Fault(error: DemuxError)

  const CRC_SIZE := 4

  function CheckCrc(pid: Pid, header: SectionHeader, data: seq<byte>): Output {
    if |data| < HEADER_SIZE + TABLE_SYNTAX_HEADER_SIZE + CRC_SIZE then
      Fault(SectionTooSmallForCrc(pid, header.tableId, |data|))
    else if Sum32(data) != 0 then Fault(CrcCheckFailed(pid, header.tableId))
    else Table(header, data)
  }

  /** One framer event through the de-duplicator and then the CRC check. The version is
      recorded before the CRC is checked. */
  function RelayOne(pid: Pid, last: Option<byte>, e: Event): (Option<byte>, seq<Output>)
    requires GoodEvent(e)
  {
    match e
    case Problem(error) => (last, [Fault(Framing(pid, error))])
    case Reset => (None, [])
    case Deliver(header, data) =>
      if last == Some(Version(data)) then (last, [])
      else (Some(Version(data)), [CheckCrc(pid, header, data)])
  }

  function Relay(pid: Pid, last: Option<byte>, events: seq<Event>): (Option<byte>, seq<Output>)
    requires AllGood(events)
    decreases |events|
  {
    if events == [] then (last, [])
    else
      var first := RelayOne(pid, last, events[0]);
      var rest := Relay(pid, first.0, events[1..]);
      (rest.0, first.1 + rest.1)
  }

  lemma {:induction false} RelayConcat(pid: Pid, last: Option<byte>, a: seq<Event>, b: seq<Event>)
    requires AllGood(a) && AllGood(b)
    ensures AllGood(a + b)
    ensures var first := Relay(pid, last, a);
            var second := Relay(pid, first.0, b);
            Relay(pid, last, a + b) == (second.0, first.1 + second.1)
    decreases |a|
  {
    hide GoodEvent, RelayOne;
    AllGoodConcat(a, b);
    if a == [] {
      assert a + b == b;
      assert [] + Relay(pid, last, b).1 == Relay(pid, last, b).1;
    } else {
      assert (a + b)[0] == a[0] && (a + b)[1..] == a[1..] + b;
      var first := RelayOne(pid, last, a[0]);
      RelayConcat(pid, first.0, a[1..], b);
      var middle := Relay(pid, first.0, a[1..]);
      var second := Relay(pid, middle.0, b);
      assert first.1 + (middle.1 + second.1) == (first.1 + middle.1) + second.1;
    }
  }

  /** The version of the last section delivered before position `i`, unless a reset came
      between: found by looking back, with no state kept. */
  function VersionBefore(events: seq<Event>, i: nat): Option<byte>
    requires AllGood(events) && i <= |events|
  {
    if i == 0 then None
    else
      assert events[i - 1] in events;
      match events[i - 1]
      case Reset => None
      case Deliver(_, data) => Some(Version(data))
      case Problem(_) => VersionBefore(events, i - 1)
  }

  /** A delivered section is a stutter if the section before it has the same version. */
  predicate Stutter(events: seq<Event>, i: nat)
    requires AllGood(events) && i < |events| && events[i].Deliver?
  {
    assert events[i] in events;
    VersionBefore(events, i) == Some(Version(events[i].data))
  }

  /** What should come of the first `n` events. */
  function Expected(pid: Pid, events: seq<Event>, n: nat): seq<Output>
    requires AllGood(events) && n <= |events|
  {
    if n == 0 then []
    else
      Expected(pid, events, n - 1)
      + (match events[n - 1]
         case Problem(error) => [Fault(Framing(pid, error))]
         case Reset => []
         case Deliver(header, data) => if Stutter(events, n - 1) then [] else [CheckCrc(pid, header, data)])
  }

  lemma {:induction false} RelayPrefix(pid: Pid, events: seq<Event>, n: nat)
    requires AllGood(events) && n <= |events|
    ensures AllGood(events[..n])
    ensures Relay(pid, None, events[..n]) == (VersionBefore(events, n), Expected(pid, events, n))
  {
    hide GoodEvent, CheckCrc, Version;
    assert forall e :: e in events[..n] ==> e in events;
    if n > 0 {
      var e := events[n - 1];
      assert e in events;
      assert events[..n] == events[..n - 1] + [e];
      RelayPrefix(pid, events, n - 1);
      var last := VersionBefore(events, n - 1);
      assert RelayOne(pid, last, e).1 + [] == RelayOne(pid, last, e).1;
      assert Relay(pid, last, [e]).0 == RelayOne(pid, last, e).0 && Relay(pid, last, [e]).1 == RelayOne(pid, last, e).1 + [];
      RelayConcat(pid, None, events[..n - 1], [e]);
    }
  }

  /** The section pipeline: of the sections delivered since it was made, with any resets
      between, the table processor receives exactly those that are no version stutter and are
      then long enough and have a zero CRC; every other outcome is reported in its place. */
  lemma PipelineExact(pid: Pid, events: seq<Event>)
    requires AllGood(events)
    ensures Relay(pid, None, events).1 == Expected(pid, events, |events|)
  {
    RelayPrefix(pid, events, |events|);
    assert events[..|events|] == events;
  }

  /** The check: at least 12 bytes and a zero sum, whatever the table; and the fault otherwise. */
  lemma CheckedExactly(pid: Pid, header: SectionHeader, data: seq<byte>)
    ensures CheckCrc(pid, header, data) == Output.Table(header, data) <==> |data| >= 12 && Sum32(data) == 0
    ensures |data| < 12 ==> CheckCrc(pid, header, data) == Fault(SectionTooSmallForCrc(pid, header.tableId, |data|))
    ensures |data| >= 12 && Sum32(data) != 0 ==> CheckCrc(pid, header, data) == Fault(CrcCheckFailed(pid, header.tableId))
  {
    hide Sum32;
  }

  /** So whatever was delivered, every table that the processor receives is long enough and has
      a zero sum, and was among the deliveries. */
  lemma {:induction false} RelayedAreSound(pid: Pid, last: Option<byte>, events: seq<Event>)
    requires AllGood(events)
    ensures forall o :: o in Relay(pid, last, events).1 && o.Table? ==>
              |o.data| >= 12 && Sum32(o.data) == 0 && Deliver(o.header, o.data) in events
    decreases |events|
  {
    hide GoodEvent, Version, CheckCrc, Sum32;
    if events != [] {
      var e := events[0];
      RelayedAreSound(pid, RelayOne(pid, last, e).0, events[1..]);
      if e.Deliver? {
        CheckedExactly(pid, e.header, e.data);
      }
    }
  }

  /** De-duplication comes first: whatever came before, a good section after a corrupt one is
      passed on if and only if its version differs. */
  lemma CorruptSectionSuppressesGood(pid: Pid, last: Option<byte>, before: seq<Event>, corrupt: Event, good: Event)
    requires AllGood(before)
    requires GoodEvent(corrupt) && GoodEvent(good) && corrupt.Deliver? && good.Deliver?
    requires CheckCrc(pid, corrupt.header, corrupt.data).Fault? && CheckCrc(pid, good.header, good.data).Table?
    ensures AllGood(before + [corrupt]) && AllGood(before + [corrupt] + [good])
    ensures Relay(pid, last, before + [corrupt] + [good]).1
         == Relay(pid, last, before + [corrupt]).1
            + if Version(corrupt.data) == Version(good.data) then [] else [Output.Table(good.header, good.data)]
  {
    hide CheckCrc, Version;
    var v := Some(Version(corrupt.data));
    RelaySingle(pid, Relay(pid, last, before).0, corrupt);
    RelayConcat(pid, last, before, [corrupt]);
    assert Relay(pid, last, before + [corrupt]).0 == v;
    RelaySingle(pid, v, good);
    RelayConcat(pid, last, before + [corrupt], [good]);
    TableIs(pid, good.header, good.data);
  }

  lemma TableIs(pid: Pid, header: SectionHeader, data: seq<byte>)
    ensures CheckCrc(pid, header, data).Table? ==> CheckCrc(pid, header, data) == Output.Table(header, data)
  {
    hide Sum32;
  }

  lemma RelaySingle(pid: Pid, last: Option<byte>, e: Event)
    requires GoodEvent(e)
    ensures AllGood([e]) && Relay(pid, last, [e]) == RelayOne(pid, last, e)
  {
    hide RelayOne, GoodEvent;
    var r := RelayOne(pid, last, e);
    assert [e][1..] == [] && Relay(pid, r.0, []) == (r.0, []) && r.1 + [] == r.1;
  }

  /** The de-duplicating parser. */
  class Dedup {
    var lastVersion: Option<byte>

    constructor ()
      ensures lastVersion == None
    {
      lastVersion := None;
    }

    /** Whether a section is passed on; its version is remembered if so. */
    method Admit(data: seq<byte>) returns (pass: bool)
      requires |data| >= 6
      modifies this
      ensures pass <==> old(lastVersion) != Some(Version(data))
      ensures lastVersion == Some(Version(data))
    {
      var version := Version(data);
      if lastVersion == Some(version) {
        return false;
      }
      lastVersion := Some(version);
      pass := true;
    }

    method Forget()
      modifies this
      ensures lastVersion == None
    {
      lastVersion := None;
    }
  }

  /** The CRC check, by the table-driven loop. */
  method CheckSection(pid: Pid, header: SectionHeader, data: seq<byte>) returns (o: Output)
    ensures o == CheckCrc(pid, header, data)
  {
    if |data| < HEADER_SIZE + TABLE_SYNTAX_HEADER_SIZE + CRC_SIZE {
      return Fault(SectionTooSmallForCrc(pid, header.tableId, |data|));
    }
    var crc := ComputeSum32(data);
    if crc != 0 {
      return Fault(CrcCheckFailed(pid, header.tableId));
    }
    o := Table(header, data);
  }
}
