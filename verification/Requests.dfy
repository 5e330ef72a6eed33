/** What is asked of the application: one filter for every entry of a table, by the entry's own
    fields, and that filter put where the entry says. */
module Requests {
  import opened Bytes
  import opened Sections
  import opened Tables
  import opened Filters
  import opened Demultiplexer
  import opened TableProcessors
  import opened Reconciliation
  import opened WireTables

  /** The filters constructed for some requests, one after another. */
  function ConstructAll<F, C>(maker: Maker<F, C>, c: C, requests: seq<Request>): (r: (C, seq<F>))
    ensures |r.1| == |requests|
    decreases |requests|
  {
    if requests == [] then (c, [])
    else
      var (f, c') := maker.construct(c, requests[0]);
      var rest := ConstructAll(maker, c', requests[1..]);
      (rest.0, [f] + rest.1)
  }

  /** Entry `i` is the last of a table's entries on PID `q`. */
  ghost predicate LastOn(pids: seq<Pid>, q: Pid, i: nat) {
    i < |pids| && pids[i] == q && forall j :: i < j < |pids| ==> pids[j] != q
  }

  // ----- the two kinds of table -----

  datatype Listing =
    | ProgramList(entries: seq<ProgramEntry>)
    | ProgramMap(pcrPid: Pid, programInfo: seq<byte>, streams: seq<StreamInfo>)

  ghost predicate ValidListing(kind: TableKind, x: Listing, other: byte) {
    match x
    case ProgramList(es) => kind.PatTable? && |es| <= 253 && forall e :: e in es ==> ValidEntry(e)
    case ProgramMap(_, info, ss) =>
      && kind.PmtTable? && |info| < 4096 && (forall s :: s in ss ==> |s.descriptors| < 4096)
      && 4 + |info| + |EncodeStreams(ss, other)| <= 1012
  }

  function TableIdOf(x: Listing): byte {
    match x case ProgramList(_) => 0x00 case ProgramMap(_, _, _) => 0x02
  }

  ghost function BodyOf(kind: TableKind, x: Listing, other: byte): seq<byte>
    requires ValidListing(kind, x, other)
  {
    match x
    case ProgramList(es) => EncodePrograms(es, other)
    case ProgramMap(pcrPid, info, ss) => EncodePmt(pcrPid, info, ss, other)
  }

  /** The PIDs of the entries, in order. */
  ghost function PidsOf(x: Listing): (pids: seq<Pid>)
    ensures |pids| == if x.ProgramList? then |x.entries| else |x.streams|
  {
    match x
    case ProgramList(es) => seq(|es|, i requires 0 <= i < |es| => es[i].pid)
    case ProgramMap(_, _, ss) => seq(|ss|, i requires 0 <= i < |ss| => ss[i].pid)
  }

  /** What each entry should have the application asked for: a program map with its PID and
      number, network information with its PID, or a stream with its program's PID and all of
      the map it is in. */
  ghost function RequestsOf(kind: TableKind, x: Listing, other: byte): (requests: seq<Request>)
    requires ValidListing(kind, x, other)
    ensures |requests| == |PidsOf(x)|
  {
    match x
    case ProgramList(es) =>
      seq(|es|, i requires 0 <= i < |es| => if es[i].Program? then Pmt(es[i].pid, es[i].number) else Nit(es[i].pid))
    case ProgramMap(pcrPid, info, ss) =>
      seq(|ss|, i requires 0 <= i < |ss| => ByStream(kind.pid, PmtSection(pcrPid, info, EncodeStreams(ss, other)), ss[i]))
  }

  // ----- what the processors make of them -----

  ghost predicate ItemsAsk(items: seq<Item>, pids: seq<Pid>, requests: seq<Request>) {
    |items| == |pids| == |requests| && forall i :: 0 <= i < |items| ==> items[i] == Entry(pids[i], requests[i])
  }

  lemma {:induction false} PatItemAt(ps: seq<PatItem>, i: nat)
    requires i < |ps|
    ensures PatItems(ps)[i] == PatEntry(ps[i])
  {
    if i > 0 {
      PatItemAt(ps[1..], i - 1);
    }
  }

  lemma {:induction false} PmtItemAt(pid: Pid, section: PmtSection, ss: seq<PmtItem>, i: nat)
    requires i < |ss|
    ensures PmtItems(pid, section, ss)[i] == PmtEntry(pid, section, ss[i])
  {
    if i > 0 {
      PmtItemAt(pid, section, ss[1..], i - 1);
    }
  }

  /** The section of a listing. */
  ghost function SectionOf(kind: TableKind, x: Listing, id: (byte, byte), version: byte, other: byte): (t: WireTable)
    requires ValidListing(kind, x, other)
    ensures |t.body| <= 1012
  {
    assert |BodyOf(kind, x, other)| <= 1012 by {
      if x.ProgramList? { ProgramsLength(x.entries, other); }
    }
    WireTable(TableIdOf(x), id, version, BodyOf(kind, x, other))
  }

  lemma Examined(kind: TableKind, x: Listing, id: (byte, byte), version: byte, other: byte)
    requires ValidListing(kind, x, other) && version < 32
    ensures var s := EncodeWire(SectionOf(kind, x, id, version, other));
            var r := Examine(kind, ParseHeader(s[..3]), s);
            |s| >= 12 && r.Ok? && ItemsAsk(r.value, PidsOf(x), RequestsOf(kind, x, other))
  {
    hide EncodeWire, ParseHeader, TableBody, Programs, ParsePmt, Streams, EncodePrograms, EncodeStreams, EncodePmt, PatItems, PmtItems;
    var t := SectionOf(kind, x, id, version, other);
    WireAccepted(t);
    var s := EncodeWire(t);
    match x {
      case ProgramList(es) =>
        ProgramsRoundTrip(es, other, []);
        assert EncodePrograms(es, other) + [] == EncodePrograms(es, other);
        var accepted := Accepted<ProgramEntry, PatError>(es);
        assert accepted + [] == accepted;
        forall i | 0 <= i < |es|
          ensures PatItems(accepted)[i] == Entry(PidsOf(x)[i], RequestsOf(kind, x, other)[i])
        {
          PatItemAt(accepted, i);
        }
      case ProgramMap(pcrPid, info, ss) =>
        PmtRoundTrip(pcrPid, info, ss, other);
        var accepted, section := Accepted<StreamInfo, PmtError>(ss), PmtSection(pcrPid, info, EncodeStreams(ss, other));
        forall i | 0 <= i < |ss|
          ensures PmtItems(kind.pid, section, accepted)[i] == Entry(PidsOf(x)[i], RequestsOf(kind, x, other)[i])
        {
          PmtItemAt(kind.pid, section, accepted, i);
        }
    }
  }

  lemma {:induction false} ItemsBuild<F, C>(maker: Maker<F, C>, c: C, items: seq<Item>, pids: seq<Pid>, requests: seq<Request>)
    requires ItemsAsk(items, pids, requests)
    ensures var (c', built) := Build(maker, c, items);
            var made := ConstructAll(maker, c, requests);
            && c' == made.0 && |built| == |pids|
            && forall i :: 0 <= i < |pids| ==> built[i] == (pids[i], made.1[i])
    decreases |items|
  {
    if items != [] {
      ItemsBuild(maker, maker.construct(c, requests[0]).1, items[1..], pids[1..], requests[1..]);
    }
  }

  /** One encoded table through its processor, for any context: its filters are constructed for
      exactly the requests of its entries, in order; with the changes applied, each PID it names
      has the filter constructed for its last entry there, PIDs that only the table before named
      have none, and the rest are as they were; and its PIDs are those registered. */
  lemma TableAsks<F, C>(maker: Maker<F, C>, kind: TableKind, registered: set<Pid>, c: C, m: map<Pid, F>,
                        x: Listing, id: (byte, byte), version: byte, other: byte)
    requires ValidListing(kind, x, other) && version < 32
    ensures var s := EncodeWire(SectionOf(kind, x, id, version, other));
            |s| >= 12 &&
            var r := ProcessSection(maker, kind, registered, c, ParseHeader(s[..3]), s);
            var (made, pids) := (ConstructAll(maker, c, RequestsOf(kind, x, other)), PidsOf(x));
            var after := ApplyAll(m, r.2);
            && r.1 == made.0
            && InsertsFirst(r.2, pids, made.1)
            && (forall q: Pid :: q in r.0 <==> q in pids)
            && (forall q: Pid, i: nat :: LastOn(pids, q, i) ==> q in after && after[q] == made.1[i])
            && (forall q: Pid :: q !in pids && q in registered ==> q !in after)
            && (forall q: Pid :: q !in pids && q !in registered ==> (q in after <==> q in m) && (q in m ==> after[q] == m[q]))
  {
    hide EncodeWire, ParseHeader, Examine, SectionOf, RequestsOf, PidsOf, NewTable, ApplyAll, FiltersOf, Build, Pids;
    Examined(kind, x, id, version, other);
    var s := EncodeWire(SectionOf(kind, x, id, version, other));
    var items, pids := Examine(kind, ParseHeader(s[..3]), s).value, PidsOf(x);
    ItemsBuild(maker, c, items, pids, RequestsOf(kind, x, other));
    TableApplied(maker, registered, c, items, m);
    var built := Build(maker, c, items).1;
    NewTableParts(maker, registered, c, items);
    BuiltOn(built, pids);
    QueuedInOrder(maker, registered, c, items, pids, ConstructAll(maker, c, RequestsOf(kind, x, other)).1);
    FiltersOfIsLast(built);
    forall q: Pid, i: nat | LastOn(pids, q, i)
      ensures q in FiltersOf(built) && FiltersOf(built)[q] == built[i].1
    {
      assert LastFor(built, i);
    }
  }

  /** The queue: an insertion for every entry, in order, and then removals only. */
  ghost predicate InsertsFirst<F>(changes: seq<Change<F>>, pids: seq<Pid>, made: seq<F>) {
    && |made| == |pids| <= |changes|
    && (forall i :: 0 <= i < |pids| ==> changes[i] == Insert(pids[i], made[i]))
    && (forall i :: |pids| <= i < |changes| ==> changes[i].Remove?)
  }

  lemma {:induction false} InsertionsInOrder<F>(built: Built<F>)
    ensures |Insertions(built)| == |built|
    ensures forall i :: 0 <= i < |built| ==> Insertions(built)[i] == Insert(built[i].0, built[i].1)
    decreases |built|
  {
    if built != [] {
      InsertionsInOrder(built[1..]);
    }
  }

  lemma QueuedInOrder<F, C>(maker: Maker<F, C>, registered: set<Pid>, c: C, items: seq<Item>, pids: seq<Pid>, made: seq<F>)
    requires var built := Build(maker, c, items).1;
             |built| == |pids| == |made| && forall i :: 0 <= i < |pids| ==> built[i] == (pids[i], made[i])
    ensures InsertsFirst(NewTable(maker, registered, c, items).2, pids, made)
  {
    hide Outdated, Build, Pids, Insertions;
    var built := Build(maker, c, items).1;
    var inserts: seq<Change<F>>, removals: seq<Change<F>> := Insertions(built), Removals<F>(Outdated(registered, Pids(built), 0));
    InsertionsInOrder(built);
    forall i | |pids| <= i < |inserts + removals|
      ensures (inserts + removals)[i].Remove?
    {
      assert (inserts + removals)[i] == removals[i - |inserts|];
    }
  }

  lemma NewTableParts<F, C>(maker: Maker<F, C>, registered: set<Pid>, c: C, items: seq<Item>)
    ensures var r, b := NewTable(maker, registered, c, items), Build(maker, c, items); r.0 == Pids(b.1) && r.1 == b.0
  {
  }

  lemma BuiltOn<F>(built: Built<F>, pids: seq<Pid>)
    requires |built| == |pids| && forall i :: 0 <= i < |pids| ==> built[i].0 == pids[i]
    ensures forall q: Pid :: q in Pids(built) <==> q in pids
  {
    forall q: Pid
      ensures q in Pids(built) <==> q in pids
    {
      if q in pids {
        var i :| 0 <= i < |pids| && pids[i] == q;
        assert built[i].0 == q;
      }
    }
  }

  // ----- an application that writes down what it is asked -----

  /** Its filters are the requests themselves, its context the list of them. */
  function Recorder(): Maker<Request, seq<Request>> {
    Maker((log: seq<Request>, r: Request) => (r, log + [r]), (log: seq<Request>, e: DemuxError) => log)
  }

  lemma {:induction false} Recorded(log: seq<Request>, requests: seq<Request>)
    ensures ConstructAll(Recorder(), log, requests) == (log + requests, requests)
    decreases |requests|
  {
    if requests == [] {
      assert log + requests == log;
    } else {
      Recorded(log + [requests[0]], requests[1..]);
      assert (log + [requests[0]]) + requests[1..] == log + requests && [requests[0]] + requests[1..] == requests;
    }
  }

  /** So what is asked is, in order, what the entries say; and the filter at each PID is the one
      asked for by its last entry there. */
  lemma TableRecorded(kind: TableKind, registered: set<Pid>, log: seq<Request>, m: map<Pid, Request>,
                      x: Listing, id: (byte, byte), version: byte, other: byte)
    requires ValidListing(kind, x, other) && version < 32
    ensures var s := EncodeWire(SectionOf(kind, x, id, version, other));
            |s| >= 12 &&
            var r := ProcessSection(Recorder(), kind, registered, log, ParseHeader(s[..3]), s);
            && r.1 == log + RequestsOf(kind, x, other)
            && forall q: Pid, i: nat :: LastOn(PidsOf(x), q, i) ==>
                 q in ApplyAll(m, r.2) && ApplyAll(m, r.2)[q] == RequestsOf(kind, x, other)[i]
  {
    hide EncodeWire, ParseHeader, SectionOf, RequestsOf, PidsOf, ProcessSection, ApplyAll;
    TableAsks(Recorder(), kind, registered, log, m, x, id, version, other);
    Recorded(log, RequestsOf(kind, x, other));
  }

  // ----- tables that are rejected -----

  /** Which sections the PAT processor takes, and why it rejects the others. */
  lemma PatRule(header: SectionHeader, data: seq<byte>)
    requires |data| >= 12
    ensures Examine(PatTable, header, data).Ok? <==> header.length <= 1021 && header.tableId == 0x00
    ensures header.length > 1021 ==>
              Examine(PatTable, header, data) == Err(SectionTooLarge(0, header.tableId, header.length, 1021))
    ensures header.length <= 1021 && header.tableId != 0x00 ==>
              Examine(PatTable, header, data) == Err(InvalidTableId(0, 0x00, header.tableId))
  {
    hide Programs, PatItems, TableBody;
  }

  /** And the PMT processor: the body is looked at before the table id. */
  lemma PmtRule(pid: Pid, header: SectionHeader, data: seq<byte>)
    requires |data| >= 12
    ensures var body := data[8..|data| - 4];
            && (Examine(PmtTable(pid), header, data).Ok? <==>
                  header.length <= 1021 && ParsePmt(body).Ok? && header.tableId == 0x02)
            && (header.length > 1021 ==>
                  Examine(PmtTable(pid), header, data) == Err(SectionTooLarge(pid, header.tableId, header.length, 1021)))
            && (header.length <= 1021 && ParsePmt(body).Err? ==>
                  Examine(PmtTable(pid), header, data) == Err(DemuxError.PmtParseError(pid, ParsePmt(body).error)))
            && (header.length <= 1021 && ParsePmt(body).Ok? && header.tableId != 0x02 ==>
                  Examine(PmtTable(pid), header, data) == Err(InvalidTableId(pid, 0x02, header.tableId)))
  {
    hide ParsePmt, Streams, PmtItems;
  }

  // ----- entries that cannot be read -----

  lemma {:induction false} BuildThenBad<F, C>(maker: Maker<F, C>, c: C, items: seq<Item>, pids: seq<Pid>, requests: seq<Request>, e: DemuxError)
    requires ItemsAsk(items, pids, requests)
    ensures Build(maker, c, items + [Bad(e)]).0 == maker.report(ConstructAll(maker, c, requests).0, e)
    ensures Build(maker, c, items + [Bad(e)]).1 == Build(maker, c, items).1
    decreases |items|
  {
    var all := items + [Bad(e)];
    if items == [] {
      assert all[1..] == [];
    } else {
      assert all[0] == items[0] && all[1..] == items[1..] + [Bad(e)];
      BuildThenBad(maker, maker.construct(c, requests[0]).1, items[1..], pids[1..], requests[1..], e);
    }
  }

  /** A program list with one to three bytes too many: the entries are asked for as before, and
      then the error is reported. */
  lemma PatThenBad<F, C>(maker: Maker<F, C>, c: C, es: seq<ProgramEntry>, other: byte, rest: seq<byte>)
    requires ValidListing(PatTable, ProgramList(es), other) && 1 <= |rest| < 4
    ensures Build(maker, c, PatItems(Programs(EncodePrograms(es, other) + rest))).0
         == maker.report(ConstructAll(maker, c, RequestsOf(PatTable, ProgramList(es), other)).0, PatEntryParseError(PatNotEnoughData(|rest|)))
  {
    hide EncodePrograms, Programs, ConstructAll, Build, PatItems;
    ProgramsRoundTrip(es, other, rest);
    var ps := Programs(EncodePrograms(es, other) + rest);
    var items, x := PatItems(ps), ProgramList(es);
    forall i | 0 <= i < |ps|
      ensures items[i] == if i < |es| then Entry(PidsOf(x)[i], RequestsOf(PatTable, x, other)[i]) else Bad(PatEntryParseError(PatNotEnoughData(|rest|)))
    {
      PatItemAt(ps, i);
    }
    BuildThenBad(maker, c, items[..|es|], PidsOf(x), RequestsOf(PatTable, x, other), PatEntryParseError(PatNotEnoughData(|rest|)));
    assert items == items[..|es|] + [Bad(PatEntryParseError(PatNotEnoughData(|rest|)))];
  }

  /** And a program map with bytes after its streams that are no entry. */
  lemma PmtThenBad<F, C>(maker: Maker<F, C>, c: C, pid: Pid, pcrPid: Pid, info: seq<byte>, ss: seq<StreamInfo>, other: byte, rest: seq<byte>)
    requires ValidListing(PmtTable(pid), ProgramMap(pcrPid, info, ss), other) && rest != [] && ParseStream(rest).Err?
    ensures var section := PmtSection(pcrPid, info, EncodeStreams(ss, other));
            Build(maker, c, PmtItems(pid, section, Streams(EncodeStreams(ss, other) + rest))).0
            == maker.report(ConstructAll(maker, c, RequestsOf(PmtTable(pid), ProgramMap(pcrPid, info, ss), other)).0,
                            DemuxError.PmtParseError(pid, ParseStream(rest).error))
  {
    hide EncodeStreams, Streams, ConstructAll, Build, PmtItems, ParseStream;
    StreamsThenRest(ss, other, rest);
    var section, kind, x := PmtSection(pcrPid, info, EncodeStreams(ss, other)), PmtTable(pid), ProgramMap(pcrPid, info, ss);
    var ps := Streams(EncodeStreams(ss, other) + rest);
    var items, e := PmtItems(pid, section, ps), DemuxError.PmtParseError(pid, ParseStream(rest).error);
    forall i | 0 <= i < |ps|
      ensures items[i] == if i < |ss| then Entry(PidsOf(x)[i], RequestsOf(kind, x, other)[i]) else Bad(e)
    {
      PmtItemAt(pid, section, ps, i);
    }
    BuildThenBad(maker, c, items[..|ss|], PidsOf(x), RequestsOf(kind, x, other), e);
    assert items == items[..|ss|] + [Bad(e)];
  }
}
