/** The PAT and PMT processors of src/demultiplex.rs: a table of entries becomes a queue of
    filter insertions, then removals for the PIDs that only the previous table named. */
module TableProcessors {
  import opened Bytes
  import opened Sections
  import opened Tables
  import opened Filters
  import opened Demultiplexer

  const SECTION_LENGTH_LIMIT := 1021

  datatype TableKind = PatTable | PmtTable(pid: Pid)

  /** A table entry as the processors treat it. */
  datatype Item =
    | Entry(pid: Pid, request: Request)
    | Bad(error: DemuxError)

  function PatEntry(i: PatItem): Item {
    match i
    case Ok(Program(number, pid)) => Entry(pid, Pmt(pid, number))
    case Ok(Network(pid)) => Entry(pid, Nit(pid))
    case Err(e) => Bad(PatEntryParseError(e))
  }

  function PmtEntry(pid: Pid, section: PmtSection, i: PmtItem): Item {
    match i
    case Ok(stream) => Entry(stream.pid, ByStream(pid, section, stream))
    case Err(e) => Bad(PmtParseError(pid, e))
  }

  function PatItems(ps: seq<PatItem>): (items: seq<Item>)
    ensures |items| == |ps|
  {
    if ps == [] then [] else [PatEntry(ps[0])] + PatItems(ps[1..])
  }

  function PmtItems(pid: Pid, section: PmtSection, ss: seq<PmtItem>): (items: seq<Item>)
    ensures |items| == |ss|
  {
    if ss == [] then [] else [PmtEntry(pid, section, ss[0])] + PmtItems(pid, section, ss[1..])
  }

  /** The bytes of a section between its headers and its CRC. */
  function TableBody(data: seq<byte>): seq<byte>
    requires |data| >= 12
  {
    data[8..|data| - 4]
  }

  /** The entries of an accepted section, or why it is rejected. */
  function Examine(kind: TableKind, header: SectionHeader, data: seq<byte>): Result<seq<Item>, DemuxError>
    requires |data| >= 12
  {
    match kind
    case PatTable =>
      if header.length > SECTION_LENGTH_LIMIT then
        Err(SectionTooLarge(0, header.tableId, header.length, SECTION_LENGTH_LIMIT))
      else if header.tableId != 0x00 then Err(InvalidTableId(0, 0x00, header.tableId))
      else Ok(PatItems(Programs(TableBody(data))))
    case PmtTable(pid) =>
      if header.length > SECTION_LENGTH_LIMIT then
        Err(SectionTooLarge(pid, header.tableId, header.length, SECTION_LENGTH_LIMIT))
      else
        match ParsePmt(TableBody(data))
        case Err(e) => Err(PmtParseError(pid, e))
        case Ok(section) =>
          if header.tableId != 0x02 then Err(InvalidTableId(pid, 0x02, header.tableId))
          else Ok(PmtItems(pid, section, Streams(section.streams)))
  }

  // ----- what a table queues -----

  type Built<F> = seq<(Pid, F)>

  /** The filters constructed for the entries of a table, in order. */
  function Build<F, C>(maker: Maker<F, C>, c: C, items: seq<Item>): (C, Built<F>)
    decreases |items|
  {
    if items == [] then (c, [])
    else
      match items[0]
      case Bad(e) => Build(maker, maker.report(c, e), items[1..])
      case Entry(pid, request) =>
        var (f, c') := maker.construct(c, request);
        var rest := Build(maker, c', items[1..]);
        (rest.0, [(pid, f)] + rest.1)
  }

  function Insertions<F>(built: Built<F>): seq<Change<F>> {
    if built == [] then [] else [Insert(built[0].0, built[0].1)] + Insertions(built[1..])
  }

  /** The PIDs of `registered` but not of `seen`, ascending, from `lo` up. */
  function Outdated(registered: set<Pid>, seen: set<Pid>, lo: nat): (ps: seq<Pid>)
    requires lo <= PID_COUNT
    decreases PID_COUNT - lo
  {
    if lo == PID_COUNT then []
    else (if lo in registered && lo !in seen then [lo] else []) + Outdated(registered, seen, lo + 1)
  }

  function Removals<F>(ps: seq<Pid>): (cs: seq<Change<F>>)
    ensures |cs| == |ps| && forall i :: 0 <= i < |ps| ==> cs[i] == Remove(ps[i])
  {
    seq(|ps|, i requires 0 <= i < |ps| => Remove(ps[i]))
  }

  function Pids<F>(built: Built<F>): set<Pid> {
    set i | 0 <= i < |built| :: built[i].0
  }

  /** A processor's step: the PIDs it keeps registered, the context, the changes it queues. */
  type TableOutcome<F, C> = (set<Pid>, C, seq<Change<F>>)

  function NewTable<F, C>(maker: Maker<F, C>, registered: set<Pid>, c: C, items: seq<Item>): TableOutcome<F, C> {
    var (c', built) := Build(maker, c, items);
    var seen := Pids(built);
    (seen, c', Insertions(built) + Removals<F>(Outdated(registered, seen, 0)))
  }

  function ProcessSection<F, C>(maker: Maker<F, C>, kind: TableKind, registered: set<Pid>, c: C,
                                header: SectionHeader, data: seq<byte>): TableOutcome<F, C>
    requires |data| >= 12
  {
    match Examine(kind, header, data)
    case Err(e) => (registered, maker.report(c, e), [])
    case Ok(items) => NewTable(maker, registered, c, items)
  }

  // ----- the processors -----

  lemma {:induction false} InsertionsConcat<F>(a: Built<F>, b: Built<F>)
    ensures Insertions(a + b) == Insertions(a) + Insertions(b)
  {
    if a == [] {
      assert a + b == b;
    } else {
      assert (a + b)[0] == a[0] && (a + b)[1..] == a[1..] + b;
      InsertionsConcat(a[1..], b);
    }
  }

  /** What remains to be built after some entries. */
  ghost predicate OnTrack<F, C>(goal: (C, Built<F>), maker: Maker<F, C>, c: C, built: Built<F>, items: seq<Item>) {
    var rest := Build(maker, c, items);
    goal == (rest.0, built + rest.1)
  }

  lemma TrackStart<F, C>(maker: Maker<F, C>, c: C, items: seq<Item>)
    ensures OnTrack(Build(maker, c, items), maker, c, [], items)
  {
    assert [] + Build(maker, c, items).1 == Build(maker, c, items).1;
  }

  lemma TrackEnd<F, C>(goal: (C, Built<F>), maker: Maker<F, C>, c: C, built: Built<F>)
    requires OnTrack(goal, maker, c, built, [])
    ensures goal == (c, built)
  {
    assert built + [] == built;
  }

  lemma TrackBad<F, C>(goal: (C, Built<F>), maker: Maker<F, C>, c: C, built: Built<F>, e: DemuxError, items: seq<Item>)
    requires OnTrack(goal, maker, c, built, [Bad(e)] + items)
    ensures OnTrack(goal, maker, maker.report(c, e), built, items)
  {
    assert ([Bad(e)] + items)[1..] == items;
  }

  lemma TrackEntry<F, C>(goal: (C, Built<F>), maker: Maker<F, C>, c: C, built: Built<F>, pid: Pid, request: Request, items: seq<Item>)
    requires OnTrack(goal, maker, c, built, [Entry(pid, request)] + items)
    ensures var (f, c') := maker.construct(c, request);
            && OnTrack(goal, maker, c', built + [(pid, f)], items)
            && Insertions(built + [(pid, f)]) == Insertions(built) + [Insert(pid, f)]
            && Pids(built + [(pid, f)]) == Pids(built) + {pid}
  {
    var (f, c') := maker.construct(c, request);
    var rest := Build(maker, c', items).1;
    assert ([Entry(pid, request)] + items)[1..] == items;
    assert built + ([(pid, f)] + rest) == (built + [(pid, f)]) + rest;
    InsertionsConcat(built, [(pid, f)]);
    assert Insertions([(pid, f)]) == [Insert(pid, f)];
    PidsPush(built, pid, f);
  }

  lemma NoneBuilt<F>()
    ensures Insertions<F>([]) == [] && Pids<F>([]) == {}
  {
  }

  lemma PidsPush<F>(built: Built<F>, pid: Pid, f: F)
    ensures Pids(built + [(pid, f)]) == Pids(built) + {pid}
  {
    var all := built + [(pid, f)];
    assert all[|built|].0 == pid;
    forall p | p in Pids(built)
      ensures p in Pids(all)
    {
      var i :| 0 <= i < |built| && built[i].0 == p;
      assert all[i].0 == p;
    }
  }

  /** `remove_outdated`: walk the difference of the two bit sets in ascending order. */
  method RemoveOutdated<F>(registered: set<Pid>, seen: set<Pid>) returns (changes: seq<Change<F>>)
    ensures changes == Removals<F>(Outdated(registered, seen, 0))
  {
    ghost var goal := Outdated(registered, seen, 0);
    ghost var done: seq<Pid> := [];
    changes := [];
    for pid := 0 to PID_COUNT
      invariant changes == Removals<F>(done) && done + Outdated(registered, seen, pid) == goal
    {
      OutdatedStep(registered, seen, pid, done);
      if pid in registered && pid !in seen {
        changes := changes + [Remove(pid)];
        done := done + [pid];
      }
    }
    assert done + [] == done;
  }

  lemma OutdatedStep(registered: set<Pid>, seen: set<Pid>, pid: Pid, done: seq<Pid>)
    ensures var now := if pid in registered && pid !in seen then done + [pid] else done;
            done + Outdated(registered, seen, pid) == now + Outdated(registered, seen, pid + 1)
  {
    var later := Outdated(registered, seen, pid + 1);
    assert (done + [pid]) + later == done + ([pid] + later);
    assert [] + later == later;
  }

  class PatProcessor<F, C> {
    const maker: Maker<F, C>
    var filtersRegistered: set<Pid>

    constructor (maker: Maker<F, C>)
      ensures this.maker == maker && filtersRegistered == {}
    {
      this.maker := maker;
      filtersRegistered := {};
    }

    method Section(c: C, header: SectionHeader, data: seq<byte>) returns (c': C, changes: seq<Change<F>>)
      requires |data| >= 12
      modifies this
      ensures (filtersRegistered, c', changes) == ProcessSection(maker, PatTable, old(filtersRegistered), c, header, data)
    {
      changes := [];
      if header.length > SECTION_LENGTH_LIMIT {
        c' := maker.report(c, SectionTooLarge(0, header.tableId, header.length, SECTION_LENGTH_LIMIT));
        return;
      }
      if header.tableId != 0x00 {
        c' := maker.report(c, InvalidTableId(0, 0x00, header.tableId));
        return;
      }
      c', changes := AddPrograms(c, TableBody(data));
    }

    /** `new_table`: insert a filter for every entry, then drop those no longer named. */
    method AddPrograms(c: C, body: seq<byte>) returns (c': C, changes: seq<Change<F>>)
      modifies this
      ensures (filtersRegistered, c', changes) == NewTable(maker, old(filtersRegistered), c, PatItems(Programs(body)))
    {
      hide Programs, OnTrack, Insertions, Pids;
      NoneBuilt<F>();
      c', changes := c, [];
      var seen := {};
      ghost var built: Built<F> := [];
      var iter := new ProgramIter(body);
      ghost var goal := Build(maker, c, PatItems(Programs(body)));
      TrackStart(maker, c, PatItems(Programs(body)));
      while true
        invariant changes == Insertions(built) && seen == Pids(built)
        invariant fresh(iter) && filtersRegistered == old(filtersRegistered) + seen
        invariant OnTrack(goal, maker, c', built, PatItems(Programs(iter.buf)))
        decreases |iter.buf|
      {
        ghost var before := Programs(iter.buf);
        var item := iter.Next();
        if item.None? {
          NoPrograms();
          TrackEnd(goal, maker, c', built);
          break;
        }
        assert before[1..] == Programs(iter.buf);
        ghost var later := PatItems(Programs(iter.buf));
        match PatEntry(item.value) {
          case Bad(e) =>
            TrackBad(goal, maker, c', built, e, later);
            c' := maker.report(c', e);
          case Entry(pid, request) =>
            TrackEntry(goal, maker, c', built, pid, request, later);
            var f;
            f, c' := ConstructFilter(maker, c', request);
            built := built + [(pid, f)];
            changes := changes + [Insert(pid, f)];
            seen := seen + {pid};
            filtersRegistered := filtersRegistered + {pid};
        }
      }
      var removals := RemoveOutdated(filtersRegistered, seen);
      OutdatedIgnoresSeen(old(filtersRegistered), seen, 0);
      changes := changes + removals;
      filtersRegistered := seen;
    }
  }

  method ConstructFilter<F, C>(maker: Maker<F, C>, c: C, request: Request) returns (f: F, c': C)
    ensures (f, c') == maker.construct(c, request)
  {
    var r := maker.construct(c, request);
    f, c' := r.0, r.1;
  }

  lemma NoPrograms()
    ensures Programs([]) == [] && PatItems([]) == []
  {
  }

  /** Registering the PIDs already seen in this table makes no PID outdated. */
  lemma {:induction false} OutdatedIgnoresSeen(registered: set<Pid>, seen: set<Pid>, lo: nat)
    requires lo <= PID_COUNT
    ensures Outdated(registered + seen, seen, lo) == Outdated(registered, seen, lo)
    decreases PID_COUNT - lo
  {
    if lo < PID_COUNT {
      OutdatedIgnoresSeen(registered, seen, lo + 1);
    }
  }

  class PmtProcessor<F, C> {
    const maker: Maker<F, C>
    const pid: Pid
    var filtersRegistered: set<Pid>

    constructor (maker: Maker<F, C>, pid: Pid)
      ensures this.maker == maker && this.pid == pid && filtersRegistered == {}
    {
      this.maker := maker;
      this.pid := pid;
      filtersRegistered := {};
    }

    method Section(c: C, header: SectionHeader, data: seq<byte>) returns (c': C, changes: seq<Change<F>>)
      requires |data| >= 12
      modifies this
      ensures (filtersRegistered, c', changes) == ProcessSection(maker, PmtTable(pid), old(filtersRegistered), c, header, data)
    {
      changes := [];
      if header.length > SECTION_LENGTH_LIMIT {
        c' := maker.report(c, SectionTooLarge(pid, header.tableId, header.length, SECTION_LENGTH_LIMIT));
        return;
      }
      match ParsePmt(TableBody(data))
      case Err(e) => c' := maker.report(c, PmtParseError(pid, e));
      case Ok(section) =>
        if header.tableId != 0x02 {
          c' := maker.report(c, InvalidTableId(pid, 0x02, header.tableId));
        } else {
          c', changes := AddStreams(c, section);
        }
    }

    /** `new_table`, for the streams of a program. */
    method AddStreams(c: C, section: PmtSection) returns (c': C, changes: seq<Change<F>>)
      modifies this
      ensures (filtersRegistered, c', changes)
           == NewTable(maker, old(filtersRegistered), c, PmtItems(pid, section, Streams(section.streams)))
    {
      hide Streams, OnTrack, Insertions, Pids;
      NoneBuilt<F>();
      c', changes := c, [];
      var seen := {};
      ghost var built: Built<F> := [];
      var iter := new StreamInfoIter(section.streams);
      ghost var goal := Build(maker, c, PmtItems(pid, section, Streams(section.streams)));
      TrackStart(maker, c, PmtItems(pid, section, Streams(section.streams)));
      while true
        invariant changes == Insertions(built) && seen == Pids(built)
        invariant fresh(iter) && filtersRegistered == old(filtersRegistered) + seen
        invariant OnTrack(goal, maker, c', built, PmtItems(pid, section, Streams(iter.buf)))
        decreases |iter.buf|
      {
        ghost var before := Streams(iter.buf);
        var item := iter.Next();
        if item.None? {
          NoStreams(pid, section);
          TrackEnd(goal, maker, c', built);
          break;
        }
        assert before[1..] == Streams(iter.buf);
        ghost var later := PmtItems(pid, section, Streams(iter.buf));
        match PmtEntry(pid, section, item.value) {
          case Bad(e) =>
            TrackBad(goal, maker, c', built, e, later);
            c' := maker.report(c', e);
          case Entry(streamPid, request) =>
            TrackEntry(goal, maker, c', built, streamPid, request, later);
            var f;
            f, c' := ConstructFilter(maker, c', request);
            built := built + [(streamPid, f)];
            changes := changes + [Insert(streamPid, f)];
            seen := seen + {streamPid};
            filtersRegistered := filtersRegistered + {streamPid};
        }
      }
      var removals := RemoveOutdated(filtersRegistered, seen);
      OutdatedIgnoresSeen(old(filtersRegistered), seen, 0);
      changes := changes + removals;
      filtersRegistered := seen;
    }
  }

  lemma NoStreams(pid: Pid, section: PmtSection)
    ensures Streams([]) == [] && PmtItems(pid, section, []) == []
  {
  }
}
