/** A whole multiplexer for program association tables: entries become sections with their
    check words, sections become packets, packets become the bytes that are pushed. */
module Broadcast {
  import opened Bytes
  import opened Packets
  import opened Sections
  import opened Packetiser
  import opened Crc
  import opened CrcTheorems
  import opened Tables
  import opened WireTables
  import opened Demultiplexer
  import opened Processors
  import opened TableProcessors
  import opened TableFilters
  import opened EndToEnd

  // ----- sections -----

  datatype Table = Table(streamId: (byte, byte), version: byte, entries: seq<ProgramEntry>)

  /** As many entries as a section of at most 1021 bytes can hold. */
  const MAX_ENTRIES := 253

  ghost predicate ValidTable(t: Table) {
    && |t.entries| <= MAX_ENTRIES
    && t.version < 32
    && forall e :: e in t.entries ==> ValidEntry(e)
  }

  function WireOf(t: Table, other: byte): WireTable
    requires ValidTable(t)
  {
    WireTable(0x00, t.streamId, t.version, EncodePrograms(t.entries, other))
  }

  function EncodeTable(t: Table, other: byte): seq<byte>
    requires ValidTable(t)
  {
    ProgramsLength(t.entries, other);
    EncodeWire(WireOf(t, other))
  }

  /** An encoded table is accepted by the framer, by the CRC check and by the PAT processor. */
  lemma EncodedIsPat(t: Table, other: byte)
    requires ValidTable(t)
    ensures PatSection(EncodeTable(t, other)) && |EncodeTable(t, other)| >= 12
    ensures Version(EncodeTable(t, other)) == t.version
  {
    hide EncodeWire, Sum32, ParseHeader, Version, TableBody;
    ProgramsLength(t.entries, other);
    WireAccepted(WireOf(t, other));
  }

  function EntryPids(es: seq<ProgramEntry>): set<Pid> {
    set i | 0 <= i < |es| :: es[i].pid
  }

  lemma {:induction false} PidsOfEntries(es: seq<ProgramEntry>)
    ensures ItemPids(PatItems(Accepted<ProgramEntry, PatError>(es))) == EntryPids(es)
  {
    var items := PatItems(Accepted<ProgramEntry, PatError>(es));
    if es != [] {
      var more := es[1..];
      assert Accepted<ProgramEntry, PatError>(es)[1..] == Accepted<ProgramEntry, PatError>(more);
      PidsOfEntries(more);
      ItemPidsFirst(items);
      assert EntryPids(es) == {es[0].pid} + EntryPids(more) by {
        forall p: Pid ensures p in EntryPids(es) <==> p in {es[0].pid} + EntryPids(more) {
          if p in EntryPids(es) {
            var i :| 0 <= i < |es| && es[i].pid == p;
            assert i > 0 ==> more[i - 1].pid == p;
          }
          if p in EntryPids(more) {
            var i :| 0 <= i < |more| && more[i].pid == p;
            assert es[i + 1].pid == p;
          }
        }
      }
    }
  }

  /** And it names exactly the PIDs of its entries. */
  lemma EncodedNames(t: Table, other: byte)
    requires ValidTable(t)
    ensures |EncodeTable(t, other)| >= 12
    ensures NamedBy(EncodeTable(t, other)) == EntryPids(t.entries)
  {
    hide Sum32, EncodePrograms, EncodeProgram, Programs, PatItems, ItemPids, EntryPids, EncodeWire, ParseHeader, Version, TableBody;
    var s := EncodeTable(t, other);
    ProgramsLength(t.entries, other);
    WireAccepted(WireOf(t, other));
    var body := EncodePrograms(t.entries, other);
    assert TableBody(s) == body + [];
    ProgramsRoundTrip(t.entries, other, []);
    assert Accepted<ProgramEntry, PatError>(t.entries) + [] == Accepted<ProgramEntry, PatError>(t.entries);
    PidsOfEntries(t.entries);
    NamedByDef(s);
  }

  // ----- payloads -----

  const PAYLOAD_SIZE := 184

  /** How many of the first sections fit side by side: as many as possible. */
  function Fitting(todo: seq<seq<byte>>, room: nat): (n: nat)
    ensures n <= |todo| && |Concat(todo[..n])| <= room
    ensures n < |todo| ==> |Concat(todo[..n])| + |todo[n]| > room
  {
    if todo == [] || |todo[0]| > room then 0
    else
      var n := 1 + Fitting(todo[1..], room - |todo[0]|);
      assert todo[..n][1..] == todo[1..][..n - 1];
      n
  }

  /** What goes into the next packet, filling it: the rest of the section in progress, then
      whole sections back to back, then the head of the next one. */
  function NextChunk(x: Sender): Chunk {
    var pending := |Pending(x)|;
    if pending >= PAYLOAD_SIZE then More(PAYLOAD_SIZE, 0)
    else if x.todo == [] then More(pending, PAYLOAD_SIZE - pending)
    else
      var room := PAYLOAD_SIZE - 1 - pending;
      var whole := Fitting(x.todo, room);
      var left := room - |Concat(x.todo[..whole])|;
      if whole == |x.todo| then Start(whole, 0, left) else Start(whole, left, 0)
  }

  /** A sender between two packets: it does not hold a section that is already out. */
  ghost predicate Steady(x: Sender) {
    x.sent <= |x.current| && (x.sent == |x.current| ==> x.sent == 0)
  }

  lemma NextChunkLegal(x: Sender)
    requires Steady(x) && Outstanding(x) != []
    ensures Legal(x, NextChunk(x))
    ensures |PayloadFor(x, NextChunk(x)).data| == PAYLOAD_SIZE
    ensures Steady(NextSender(x, NextChunk(x)))
    ensures NextChunk(x).stuffing > 0 ==> Outstanding(NextSender(x, NextChunk(x))) == []
    ensures var y := NextSender(x, NextChunk(x));
            |y.todo| < |x.todo| || (|y.todo| == |x.todo| && |Pending(y)| < |Pending(x)|)
  {
    hide Fitting;
    if NextChunk(x).Start? && NextChunk(x).whole == 0 {
      assert Concat(x.todo[..0]) == [];
    }
  }

  /** Chunks until nothing is left. */
  function PlanFor(x: Sender): seq<Chunk>
    requires Steady(x)
    decreases |x.todo|, |Pending(x)|
  {
    if Outstanding(x) == [] then []
    else
      NextChunkLegal(x);
      [NextChunk(x)] + PlanFor(NextSender(x, NextChunk(x)))
  }

  /** The plan is legal and sends everything, in payloads that fill their packets, and no
      stuffing comes before the last of them. */
  lemma {:induction false} PlanSendsAll(x: Sender)
    requires Steady(x)
    ensures LegalPlan(x, PlanFor(x))
    ensures Outstanding(Finally(x, PlanFor(x))) == []
    ensures forall u :: u in Packetise(x, PlanFor(x)) ==> |u.data| == PAYLOAD_SIZE
    ensures forall i :: 0 <= i < |PlanFor(x)| - 1 ==> PlanFor(x)[i].stuffing == 0
    decreases |x.todo|, |Pending(x)|
  {
    hide Legal, NextChunk, NextSender, PayloadFor;
    if Outstanding(x) != [] {
      NextChunkLegal(x);
      PlanSendsAll(NextSender(x, NextChunk(x)));
    }
  }

  // ----- packets -----

  /** The packets of one PID for some payloads, their counters following one another. */
  function PacketsFor(us: seq<Unit>, pid: Pid): (ps: seq<Packet>)
    requires forall u :: u in us ==> |u.data| == PAYLOAD_SIZE
    ensures |ps| == |us|
  {
    seq(|us|, i requires 0 <= i < |us| => assert us[i] in us; PacketFor(us[i], pid, i))
  }

  function PacketFor(u: Unit, pid: Pid, counter: nat): Packet
    requires |u.data| == PAYLOAD_SIZE
  {
    Carry(Under(ByteOf(pid / 256), 0x1f, if u.start then 0x40 else 0x00), ByteOf(pid % 256), ByteOf(counter % 16), u.data)
  }

  lemma StartBits(hi: byte, start: bool)
    ensures var v := Under(hi, 0x1f, if start then 0x40 else 0x00); (v & 0x40 != 0 <==> start) && v & 0x80 == 0
  {
  }

  lemma PacketCarries(u: Unit, pid: Pid, counter: nat)
    requires |u.data| == PAYLOAD_SIZE
    ensures Carries(PacketFor(u, pid, counter), u) && IsFor(PacketFor(u, pid, counter), pid)
  {
    hide Carry, PayloadOf, UnitStart, PidOf, TransportError, Scrambled, Counter, Pid13, Under, ByteOf;
    var b1 := Under(ByteOf(pid / 256), 0x1f, if u.start then 0x40 else 0x00);
    StartBits(ByteOf(pid / 256), u.start);
    PidRoundTrip(pid, if u.start then 0x40 else 0x00);
    CarryRoundTrip(b1, ByteOf(pid % 256), ByteOf(counter % 16), u.data);
  }

  lemma PacketsCarry(us: seq<Unit>, pid: Pid)
    requires forall u :: u in us ==> |u.data| == PAYLOAD_SIZE
    ensures CarryAll(PacketsFor(us, pid), us) && AllFor(PacketsFor(us, pid), pid)
  {
    hide PacketFor, Carries, IsFor;
    var ps := PacketsFor(us, pid);
    forall i | 0 <= i < |ps|
      ensures Carries(ps[i], us[i]) && IsFor(ps[i], pid)
    {
      assert us[i] in us;
      PacketCarries(us[i], pid, i);
    }
  }

  // ----- the byte stream -----

  lemma ChunksOfPackets(ps: seq<Packet>)
    ensures Chunks(Concat(ps)) == ps
  {
    ChunksExactly(ps, []);
    assert Concat(ps) + [] == Concat(ps);
  }

  /** The byte stream of some sections, on one PID. */
  ghost function StreamOf(sections: seq<seq<byte>>, pid: Pid): seq<byte> {
    var x := Sender([], 0, sections);
    PlanSendsAll(x);
    Concat(PacketsFor(Packetise(x, PlanFor(x)), pid))
  }

  function SectionsOf(tables: seq<Table>, other: byte): (ss: seq<seq<byte>>)
    requires forall t :: t in tables ==> ValidTable(t)
    ensures |ss| == |tables|
    ensures forall i :: 0 <= i < |tables| ==> tables[i] in tables && ss[i] == EncodeTable(tables[i], other)
  {
    seq(|tables|, i requires 0 <= i < |tables| => assert tables[i] in tables; EncodeTable(tables[i], other))
  }

  /** The byte stream of a series of tables. */
  ghost function Stream(tables: seq<Table>, other: byte): seq<byte>
    requires forall t :: t in tables ==> ValidTable(t)
  {
    StreamOf(SectionsOf(tables, other), 0)
  }

  /** A series of tables as a broadcaster may send it. */
  ghost predicate ValidSeries(tables: seq<Table>) {
    && (forall t :: t in tables ==> ValidTable(t) && 0 !in EntryPids(t.entries))
    && (forall i :: 0 < i < |tables| ==> tables[i - 1].version != tables[i].version)
  }

  lemma SeriesIsPat(tables: seq<Table>, other: byte)
    requires ValidSeries(tables)
    ensures var ss := SectionsOf(tables, other); AllPat(ss) && VersionsDiffer(ss) && NoneNamesPid0(ss)
  {
    hide ValidTable, EncodeTable, PatSection, Version, NamedBy, EntryPids;
    var ss := SectionsOf(tables, other);
    forall s | s in ss
      ensures PatSection(s) && |s| >= 12 && 0 !in NamedBy(s)
    {
      var i :| 0 <= i < |ss| && ss[i] == s;
      EncodedIsPat(tables[i], other);
      EncodedNames(tables[i], other);
    }
    forall i | 0 < i < |ss| && |ss[i - 1]| >= 6 && |ss[i]| >= 6
      ensures Version(ss[i - 1]) != Version(ss[i])
    {
      assert tables[i - 1] in tables && tables[i] in tables;
      EncodedIsPat(tables[i - 1], other);
      EncodedIsPat(tables[i], other);
    }
  }

  /** From entries to filters: encode any series of tables, none naming PID 0 and none repeating
      the version before it, send it as a byte stream, and push that at a new demultiplexer
      whose context answers the request for PID 0 with a PAT filter. The PIDs with a filter are
      then 0 and those of the last table's entries. */
  lemma LastTableRules<U, C>(a: App<U, C>, ctx: C, tables: seq<Table>, other: byte)
    requires tables != [] && ValidSeries(tables)
    requires a.maker.construct(ctx, Request.ByPid(0)).0 == PatFilter(NewFilter)
    ensures var w := Provide(EnvOf(a), World(map[], ctx), 0);
            PushAll(EnvOf(a), w, Chunks(Stream(tables, other))).filters.Keys
            == {0} + EntryPids(tables[|tables| - 1].entries)
  {
    hide PushAll, Chunks, EncodeTable, PatSection, AllPat, VersionsDiffer, NoneNamesPid0, EntryPids, NamedBy, Packetise, PlanFor,
      PacketsFor, CarryAll, AllFor, ValidTable, Concat;
    var w := Provide(EnvOf(a), World(map[], ctx), 0);
    assert w.filters == map[0 := PatFilter(NewFilter)];
    var ss := SectionsOf(tables, other);
    var x := Sender([], 0, ss);
    SeriesIsPat(tables, other);
    PlanSendsAll(x);
    var us := Packetise(x, PlanFor(x));
    PacketsCarry(us, 0);
    ChunksOfPackets(PacketsFor(us, 0));
    ExactlyTheLastTable(a, w, ss, PlanFor(x), PacketsFor(us, 0));
    assert tables[|tables| - 1] in tables;
    EncodedNames(tables[|tables| - 1], other);
  }

  /** The same of the objects: make a demultiplexer, and push the stream at it. */
  method Receive<U, C>(a: App<U, C>, ctx: C, buf: seq<byte>, ghost tables: seq<Table>, ghost other: byte)
    returns (d: Demultiplex<EndToEnd.Filter<U>, C>)
    requires tables != [] && ValidSeries(tables) && buf == Stream(tables, other)
    requires a.maker.construct(ctx, Request.ByPid(0)).0 == PatFilter(NewFilter)
    ensures fresh(d) && d.Valid()
    ensures d.View().filters.Keys == {0} + EntryPids(tables[|tables| - 1].entries)
  {
    hide PushAll, Chunks, EntryPids, Provide, Stream, EnvOf;
    d := new Demultiplex(EnvOf(a), ctx);
    LastTableRules(a, ctx, tables, other);
    d.Push(buf);
  }

  // ----- a damaged copy first -----

  /** A section sent twice, the first copy damaged in transit: any burst within 32 bits that
      leaves the headers alone is a section that the framer delivers and the CRC check refuses,
      and the intact copy, having its version, is then left out. Whatever the table. */
  lemma DamagedCopySuppresses(s: seq<byte>, flips: seq<byte>, start: int, pid: Pid)
    requires ValidSection(SectionSyntax, s) && |s| >= 12 && Sum32(s) == 0 && |flips| == |s|
    requires forall i :: 0 <= i < 8 ==> flips[i] == 0
    requires Within(Bits(flips), start, 32) && exists j :: 0 <= j < |Bits(flips)| && Bits(flips)[j]
    ensures var damaged := XorBytes(s, flips);
            && ValidSection(SectionSyntax, damaged)
            && AllGood([Delivery(damaged), Delivery(s)])
            && Relay(pid, None, [Delivery(damaged), Delivery(s)]).1 == [Fault(CrcCheckFailed(pid, s[0]))]
  {
    hide Sum32, ParseHeader, Bits, Version, XorBytes, Within, CheckCrc;
    var damaged := XorBytes(s, flips);
    BurstDetected(s, flips, start);
    SameHeaders(s, flips);
    var corrupt, good := Delivery(damaged), Delivery(s);
    TableIdOf(s);
    CheckedExactly(pid, corrupt.header, damaged);
    RelaySingle(pid, None, corrupt);
    RelaySingle(pid, Some(Version(s)), good);
    RelayConcat(pid, None, [corrupt], [good]);
    assert [corrupt] + [good] == [corrupt, good];
  }

  lemma TableIdOf(s: seq<byte>)
    requires |s| >= HEADER_SIZE
    ensures ParseHeader(s[..HEADER_SIZE]).tableId == s[0]
  {
  }

  lemma SameHeaders(s: seq<byte>, flips: seq<byte>)
    requires |flips| == |s| >= 12 && forall i :: 0 <= i < 8 ==> flips[i] == 0
    ensures var d := XorBytes(s, flips); d[0] == s[0] && d[..HEADER_SIZE] == s[..HEADER_SIZE] && Version(d) == Version(s)
  {
    forall i | 0 <= i < 8
      ensures XorBytes(s, flips)[i] == s[i]
    {
      XorNone(s[i]);
    }
    assert XorBytes(s, flips)[..HEADER_SIZE] == s[..HEADER_SIZE];
  }

  lemma XorNone(b: byte)
    ensures b ^ 0 == b
  {
  }
}
