/** The packet filters for tables (src/demultiplex.rs `PatPacketFilter`, `PmtPacketFilter`):
    framer, de-duplication, CRC check and table processor, one after another. */
module TableFilters {
  import opened Bytes
  import opened Packets
  import opened Sections
  import opened Framers
  import opened Filters
  import opened Demultiplexer
  import opened Processors
  import opened Crc
  import opened TableProcessors

  type ReadyLink = l: Link | Ready(SectionSyntax, l) witness Fresh

  /** Everything a table filter keeps between packets. */
  datatype TableFilter = TableFilter(link: ReadyLink, last: Option<byte>, registered: set<Pid>)

  const NewFilter := TableFilter(Fresh, None, {})

  function PidFor(kind: TableKind): Pid {
    if kind.PatTable? then 0 else kind.pid
  }

  ghost predicate Checked(outs: seq<Output>) {
    forall o :: o in outs && o.Table? ==> |o.data| >= 12
  }

  lemma {:induction false} RelayChecked(pid: Pid, last: Option<byte>, events: seq<Event>)
    requires AllGood(events)
    ensures Checked(Relay(pid, last, events).1)
    decreases |events|
  {
    hide GoodEvent, Version;
    if events != [] {
      RelayChecked(pid, RelayOne(pid, last, events[0]).0, events[1..]);
    }
  }

  /** The table processor over what reaches it. */
  function HandleOutputs<F, C>(maker: Maker<F, C>, kind: TableKind, registered: set<Pid>, c: C, outs: seq<Output>): TableOutcome<F, C>
    requires Checked(outs)
    decreases |outs|
  {
    if outs == [] then (registered, c, [])
    else
      assert outs[0] in outs;
      match outs[0]
      case Fault(e) => HandleOutputs(maker, kind, registered, maker.report(c, e), outs[1..])
      case Table(header, data) =>
        var first := ProcessSection(maker, kind, registered, c, header, data);
        var rest := HandleOutputs(maker, kind, first.0, first.1, outs[1..]);
        (rest.0, rest.1, first.2 + rest.2)
  }

  /** What a table filter does with the events of its framer. */
  function HandleEvents<F, C>(maker: Maker<F, C>, kind: TableKind, last: Option<byte>, registered: set<Pid>, c: C,
                              events: seq<Event>): (Option<byte>, TableOutcome<F, C>)
    requires AllGood(events)
  {
    RelayChecked(PidFor(kind), last, events);
    var relayed := Relay(PidFor(kind), last, events);
    (relayed.0, HandleOutputs(maker, kind, registered, c, relayed.1))
  }

  /** What a table filter does with one packet. */
  function ConsumeTable<F, C>(maker: Maker<F, C>, kind: TableKind, t: TableFilter, c: C, p: Packet): (TableFilter, C, seq<Change<F>>) {
    ConsumeGood(t.link, UnitStart(p), PayloadOf(p));
    var (link, events) := Consume(SectionSyntax, t.link, UnitStart(p), PayloadOf(p));
    var (last, (registered, c', changes)) := HandleEvents(maker, kind, t.last, t.registered, c, events);
    (TableFilter(link, last, registered), c', changes)
  }

  lemma {:induction false} HandleOutputsConcat<F, C>(maker: Maker<F, C>, kind: TableKind, registered: set<Pid>, c: C, a: seq<Output>, b: seq<Output>)
    requires Checked(a) && Checked(b)
    ensures Checked(a + b)
    ensures var first := HandleOutputs(maker, kind, registered, c, a);
            var second := HandleOutputs(maker, kind, first.0, first.1, b);
            HandleOutputs(maker, kind, registered, c, a + b) == (second.0, second.1, first.2 + second.2)
    decreases |a|
  {
    hide ProcessSection;
    if a == [] {
      assert a + b == b;
      assert [] + HandleOutputs(maker, kind, registered, c, b).2 == HandleOutputs(maker, kind, registered, c, b).2;
    } else {
      assert a[0] in a;
      assert (a + b)[0] == a[0] && (a + b)[1..] == a[1..] + b;
      match a[0] {
        case Fault(e) => HandleOutputsConcat(maker, kind, registered, maker.report(c, e), a[1..], b);
        case Table(header, data) =>
          var now := ProcessSection(maker, kind, registered, c, header, data);
          HandleOutputsConcat(maker, kind, now.0, now.1, a[1..], b);
          var middle := HandleOutputs(maker, kind, now.0, now.1, a[1..]);
          var second := HandleOutputs(maker, kind, middle.0, middle.1, b);
          assert now.2 + (middle.2 + second.2) == (now.2 + middle.2) + second.2;
      }
    }
  }

  /** Events may be handled in parts. */
  lemma HandleConcat<F, C>(maker: Maker<F, C>, kind: TableKind, last: Option<byte>, registered: set<Pid>, c: C, a: seq<Event>, b: seq<Event>)
    requires AllGood(a) && AllGood(b)
    ensures AllGood(a + b)
    ensures var first := HandleEvents(maker, kind, last, registered, c, a);
            var second := HandleEvents(maker, kind, first.0, first.1.0, first.1.1, b);
            HandleEvents(maker, kind, last, registered, c, a + b)
            == (second.0, (second.1.0, second.1.1, first.1.2 + second.1.2))
  {
    hide GoodEvent, Checked;
    AllGoodConcat(a, b);
    RelayConcat(PidFor(kind), last, a, b);
    RelayChecked(PidFor(kind), last, a);
    RelayChecked(PidFor(kind), Relay(PidFor(kind), last, a).0, b);
    HandleOutputsConcat(maker, kind, registered, c, Relay(PidFor(kind), last, a).1, Relay(PidFor(kind), Relay(PidFor(kind), last, a).0, b).1);
  }

  /** `PatPacketFilter`. */
  class PatPacketFilter<F, C> {
    const maker: Maker<F, C>
    const framer: Framer
    const dedup: Dedup
    const processor: PatProcessor<F, C>

    ghost predicate Valid()
      reads framer, processor
    {
      framer.Valid() && framer.mode == SectionSyntax && processor.maker == maker
    }

    ghost function State(): TableFilter
      requires Valid()
      reads framer, dedup, processor
    {
      TableFilter(framer.LinkOf(), dedup.lastVersion, processor.filtersRegistered)
    }

    constructor (maker: Maker<F, C>)
      ensures Valid() && State() == NewFilter && this.maker == maker
    {
      this.maker := maker;
      framer := new Framer(SectionSyntax);
      dedup := new Dedup();
      processor := new PatProcessor(maker);
    }

    method ConsumePacket(c: C, p: Packet) returns (c': C, changes: seq<Change<F>>)
      requires Valid()
      modifies framer, dedup, processor
      ensures Valid() && (State(), c', changes) == ConsumeTable(maker, PatTable, old(State()), c, p)
    {
      hide Consume, Relay, HandleEvents;
      ConsumeGood(framer.LinkOf(), UnitStart(p), PayloadOf(p));
      var events := framer.ConsumePacket(UnitStart(p), PayloadOf(p));
      c', changes := HandleAll(c, events);
    }

    /** The events of one packet, each given to the parser or the error sink in turn. */
    method HandleAll(c: C, events: seq<Event>) returns (c': C, changes: seq<Change<F>>)
      requires Valid() && AllGood(events)
      modifies dedup, processor
      ensures Valid()
      ensures (dedup.lastVersion, (processor.filtersRegistered, c', changes))
           == HandleEvents(maker, PatTable, old(dedup.lastVersion), old(processor.filtersRegistered), c, events)
    {
      hide HandleEvents, GoodEvent;
      c', changes := c, [];
      assert AllGood(events[..0]);
      HandleNone(maker, PatTable, dedup.lastVersion, processor.filtersRegistered, c);
      for i := 0 to |events|
        invariant Valid() && AllGood(events[..i])
        invariant (dedup.lastVersion, (processor.filtersRegistered, c', changes))
               == HandleEvents(maker, PatTable, old(dedup.lastVersion), old(processor.filtersRegistered), c, events[..i])
      {
        assert events[i] in events;
        assert events[..i + 1] == events[..i] + [events[i]];
        HandleConcat(maker, PatTable, old(dedup.lastVersion), old(processor.filtersRegistered), c, events[..i], [events[i]]);
        var more;
        c', more := HandleOne(c', events[i]);
        changes := changes + more;
      }
      assert events[..|events|] == events;
    }

    method HandleOne(c: C, e: Event) returns (c': C, changes: seq<Change<F>>)
      requires Valid() && GoodEvent(e)
      modifies dedup, processor
      ensures Valid() && AllGood([e])
      ensures (dedup.lastVersion, (processor.filtersRegistered, c', changes))
           == HandleEvents(maker, PatTable, old(dedup.lastVersion), old(processor.filtersRegistered), c, [e])
    {
      hide HandleEvents, ProcessSection, CheckCrc, Version;
      HandleSingle(maker, PatTable, dedup.lastVersion, processor.filtersRegistered, c, e);
      c', changes := c, [];
      match e
      case Problem(error) => c' := maker.report(c, Framing(0, error));
      case Reset => dedup.Forget();
      case Deliver(header, data) =>
        var pass := dedup.Admit(data);
        if pass {
          var out := CheckSection(0, header, data);
          match out
          case Fault(error) => c' := maker.report(c, error);
          case Table(h, d) => c', changes := processor.Section(c, h, d);
        }
    }
  }

  lemma HandleNone<F, C>(maker: Maker<F, C>, kind: TableKind, last: Option<byte>, registered: set<Pid>, c: C)
    ensures HandleEvents(maker, kind, last, registered, c, []) == (last, (registered, c, []))
  {
  }

  /** One event, spelled out. */
  lemma HandleSingle<F, C>(maker: Maker<F, C>, kind: TableKind, last: Option<byte>, registered: set<Pid>, c: C, e: Event)
    requires GoodEvent(e)
    ensures AllGood([e])
    ensures var r := HandleEvents(maker, kind, last, registered, c, [e]);
            match e
            case Problem(error) => r == (last, (registered, maker.report(c, Framing(PidFor(kind), error)), []))
            case Reset => r == (None, (registered, c, []))
            case Deliver(header, data) =>
              if last == Some(Version(data)) then r == (last, (registered, c, []))
              else
                match CheckCrc(PidFor(kind), header, data)
                case Fault(error) => r == (Some(Version(data)), (registered, maker.report(c, error), []))
                case Table(h, d) => |d| >= 12 && r == (Some(Version(data)), ProcessSection(maker, kind, registered, c, h, d))
  {
    hide ProcessSection, Version;
    assert e in [e];
    var first := RelayOne(PidFor(kind), last, e);
    RelayChecked(PidFor(kind), last, [e]);
    assert first.1 + [] == first.1;
    assert Relay(PidFor(kind), last, [e]) == first;
    if first.1 != [] {
      HandleOneOutput(maker, kind, registered, c, first.1[0]);
      assert first.1 == [first.1[0]];
    }
  }

  lemma HandleOneOutput<F, C>(maker: Maker<F, C>, kind: TableKind, registered: set<Pid>, c: C, o: Output)
    requires Checked([o])
    ensures o.Table? ==> |o.data| >= 12
    ensures HandleOutputs(maker, kind, registered, c, [o])
         == if o.Fault? then (registered, maker.report(c, o.error), [])
            else ProcessSection(maker, kind, registered, c, o.header, o.data)
  {
    hide ProcessSection;
    assert o in [o];
    assert [o][1..] == [];
    if o.Table? {
      var r := ProcessSection(maker, kind, registered, c, o.header, o.data);
      assert r.2 + [] == r.2;
    }
  }

  /** Every error of a table filter carries the PID it is for: 0 for the program association, the
      program's own for its map. Faults are reported as they come. */
  lemma FaultsCarryPid<F, C>(maker: Maker<F, C>, last: Option<byte>, registered: set<Pid>, c: C, e: FramerError, pid: Pid)
    ensures AllGood([Problem(e)])
    ensures HandleEvents(maker, PatTable, last, registered, c, [Problem(e)]) == (last, (registered, maker.report(c, Framing(0, e)), []))
    ensures HandleEvents(maker, PmtTable(pid), last, registered, c, [Problem(e)])
         == (last, (registered, maker.report(c, Framing(pid, e)), []))
  {
    HandleSingle(maker, PatTable, last, registered, c, Problem(e));
    HandleSingle(maker, PmtTable(pid), last, registered, c, Problem(e));
  }

  lemma CrcFaultsCarryPid<F, C>(maker: Maker<F, C>, registered: set<Pid>, c: C, e: Event, pid: Pid)
    requires GoodEvent(e) && e.Deliver? && |e.data| >= 12 && Sum32(e.data) != 0
    ensures AllGood([e])
    ensures HandleEvents(maker, PatTable, None, registered, c, [e]).1 == (registered, maker.report(c, CrcCheckFailed(0, e.header.tableId)), [])
    ensures HandleEvents(maker, PmtTable(pid), None, registered, c, [e]).1
         == (registered, maker.report(c, CrcCheckFailed(pid, e.header.tableId)), [])
  {
    hide Version, GoodEvent;
    HandleSingle(maker, PatTable, None, registered, c, e);
    HandleSingle(maker, PmtTable(pid), None, registered, c, e);
    CheckedExactly(0, e.header, e.data);
    CheckedExactly(pid, e.header, e.data);
  }
}
