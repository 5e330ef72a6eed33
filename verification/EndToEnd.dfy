/** From packets to the filter map: pushing a packetised series of program association tables
    leaves filters for exactly the PIDs of the latest one. */
module EndToEnd {
  import opened Bytes
  import opened Packets
  import opened Sections
  import opened Framers
  import opened Packetiser
  import opened Crc
  import opened Tables
  import opened Filters
  import opened Demultiplexer
  import opened Processors
  import opened TableProcessors
  import opened TableFilters
  import opened Reconciliation

  // ----- an application's filters -----

  /** The library's table filters, and whatever filters the application has of its own. */
  datatype Filter<+U> =
    | PatFilter(pat: TableFilter)
    | PmtFilter(pmtPid: Pid, pmt: TableFilter)
    | AppFilter(app: U)

  datatype App<!U, !C> = App(
    maker: Maker<Filter<U>, C>,
    consume: (U, C, Packet) -> (U, C, seq<Change<Filter<U>>>))

  function ConsumeFilter<U, C>(a: App<U, C>, f: Filter<U>, c: C, p: Packet): (Filter<U>, C, seq<Change<Filter<U>>>) {
    match f
    case PatFilter(t) =>
      var r := ConsumeTable(a.maker, PatTable, t, c, p);
      (PatFilter(r.0), r.1, r.2)
    case PmtFilter(pid, t) =>
      var r := ConsumeTable(a.maker, PmtTable(pid), t, c, p);
      (PmtFilter(pid, r.0), r.1, r.2)
    case AppFilter(u) =>
      var r := a.consume(u, c, p);
      (AppFilter(r.0), r.1, r.2)
  }

  function EnvOf<U, C>(a: App<U, C>): Env<Filter<U>, C> {
    Env(a.maker, (f: Filter<U>, c: C, p: Packet) => ConsumeFilter(a, f, c, p))
  }

  // ----- table filters, whichever they are -----

  predicate IsTable<U>(f: Filter<U>) { !f.AppFilter? }

  function KindOf<U>(f: Filter<U>): TableKind
    requires IsTable(f)
  {
    if f.PatFilter? then PatTable else PmtTable(f.pmtPid)
  }

  function StateOf<U>(f: Filter<U>): TableFilter
    requires IsTable(f)
  {
    if f.PatFilter? then f.pat else f.pmt
  }

  function WithState<U>(f: Filter<U>, t: TableFilter): Filter<U>
    requires IsTable(f)
  {
    if f.PatFilter? then PatFilter(t) else PmtFilter(f.pmtPid, t)
  }

  // ----- packets of one PID -----

  /** A packet that the filter of `pid` is given. */
  predicate IsFor(p: Packet, pid: Pid) {
    PidOf(p) == pid && !TransportError(p) && !Scrambled(p)
  }

  ghost predicate AllFor(ps: seq<Packet>, pid: Pid) {
    forall p :: p in ps ==> IsFor(p, pid)
  }

  /** A table filter over a list of packets. */
  function ConsumeTables<F, C>(maker: Maker<F, C>, kind: TableKind, t: TableFilter, c: C, ps: seq<Packet>): (TableFilter, C, seq<Change<F>>)
    decreases |ps|
  {
    if ps == [] then (t, c, [])
    else
      var first := ConsumeTable(maker, kind, t, c, ps[0]);
      var rest := ConsumeTables(maker, kind, first.0, first.1, ps[1..]);
      (rest.0, rest.1, first.2 + rest.2)
  }

  ghost predicate Avoids<F>(cs: seq<Change<F>>, pid: Pid) {
    forall i :: 0 <= i < |cs| ==> cs[i].pid != pid
  }

  /** Changes to other PIDs commute with an update of this one. */
  lemma {:induction false} ApplyElsewhere<F>(m: map<Pid, F>, cs: seq<Change<F>>, pid: Pid, f: F)
    requires Avoids(cs, pid)
    ensures ApplyAll(m[pid := f], cs) == ApplyAll(m, cs)[pid := f]
    decreases |cs|
  {
    if cs != [] {
      ChangeElsewhere(m, cs[0], pid, f);
      ApplyElsewhere(ApplyChange(m, cs[0]), cs[1..], pid, f);
    }
  }

  lemma ChangeElsewhere<F>(m: map<Pid, F>, c: Change<F>, pid: Pid, f: F)
    requires c.pid != pid
    ensures ApplyChange(m[pid := f], c) == ApplyChange(m, c)[pid := f]
  {
  }

  lemma AvoidsParts<F>(a: seq<Change<F>>, b: seq<Change<F>>, pid: Pid)
    requires Avoids(a + b, pid)
    ensures Avoids(a, pid) && Avoids(b, pid)
  {
    assert forall i :: 0 <= i < |a| ==> a[i] == (a + b)[i];
    assert forall i :: 0 <= i < |b| ==> b[i] == (a + b)[|a| + i];
  }

  /** One packet on a table filter's PID is one step of that filter. */
  lemma TableStep<U, C>(a: App<U, C>, w: World<Filter<U>, C>, p: Packet, pid: Pid)
    requires IsFor(p, pid) && pid in w.filters && IsTable(w.filters[pid])
    ensures var f := w.filters[pid];
            var r := ConsumeTable(a.maker, KindOf(f), StateOf(f), w.ctx, p);
            StepPacket(EnvOf(a), w, p) == World(ApplyAll(w.filters[pid := WithState(f, r.0)], r.2), r.1)
  {
    hide ConsumeTable, ApplyAll;
  }

  /** Packets on that PID only: the demultiplexer does what the table filter does. */
  lemma {:induction false} TablePackets<U, C>(a: App<U, C>, w: World<Filter<U>, C>, ps: seq<Packet>, pid: Pid)
    requires AllFor(ps, pid) && pid in w.filters && IsTable(w.filters[pid])
    requires Avoids(ConsumeTables(a.maker, KindOf(w.filters[pid]), StateOf(w.filters[pid]), w.ctx, ps).2, pid)
    ensures var f := w.filters[pid];
            var r := ConsumeTables(a.maker, KindOf(f), StateOf(f), w.ctx, ps);
            PushAll(EnvOf(a), w, ps) == World(ApplyAll(w.filters, r.2)[pid := WithState(f, r.0)], r.1)
    decreases |ps|
  {
    hide ConsumeTable, StepPacket, IsFor, EnvOf;
    var f := w.filters[pid];
    if ps == [] {
      assert w.filters[pid := WithState(f, StateOf(f))] == w.filters;
    } else {
      assert ps[0] in ps;
      var first := ConsumeTable(a.maker, KindOf(f), StateOf(f), w.ctx, ps[0]);
      var rest := ConsumeTables(a.maker, KindOf(f), first.0, first.1, ps[1..]);
      var g := WithState(f, first.0);
      AvoidsParts(first.2, rest.2, pid);
      TableStep(a, w, ps[0], pid);
      ApplyElsewhere(w.filters, first.2, pid, g);
      var m := ApplyAll(w.filters, first.2);
      var w1 := World(m[pid := g], first.1);
      TablePackets(a, w1, ps[1..], pid);
      ApplyElsewhere(m, rest.2, pid, g);
      ApplyConcat(w.filters, first.2, rest.2);
      var n := ApplyAll(m, rest.2);
      UpdatedTwice(n, pid, g, WithState(f, rest.0));
    }
  }

  lemma UpdatedTwice<F>(m: map<Pid, F>, pid: Pid, f: F, g: F)
    ensures var once: map<Pid, F> := m[pid := f]; once[pid := g] == m[pid := g]
  {
  }

  // ----- packets that carry payloads -----

  ghost predicate Carries(p: Packet, u: Unit) {
    UnitStart(p) == u.start && PayloadOf(p) == Ok(Some(u.data))
  }

  ghost predicate CarryAll(ps: seq<Packet>, us: seq<Unit>) {
    |ps| == |us| && forall i :: 0 <= i < |ps| ==> Carries(ps[i], us[i])
  }

  lemma {:induction false} UnitsGood(l: Link, us: seq<Unit>)
    requires Ready(SectionSyntax, l)
    ensures AllGood(ConsumeUnits(SectionSyntax, l, us).1)
    decreases |us|
  {
    hide Consume, GoodEvent;
    if us != [] {
      ConsumeGood(l, us[0].start, Ok(Some(us[0].data)));
      var first := Consume(SectionSyntax, l, us[0].start, Ok(Some(us[0].data)));
      UnitsGood(first.0, us[1..]);
      AllGoodConcat(first.1, ConsumeUnits(SectionSyntax, first.0, us[1..]).1);
    }
  }

  /** A table filter over packets handles all the events of their payloads. */
  lemma {:induction false} TablesHandleEvents<F, C>(maker: Maker<F, C>, kind: TableKind, t: TableFilter, c: C, ps: seq<Packet>, us: seq<Unit>)
    requires CarryAll(ps, us)
    ensures AllGood(ConsumeUnits(SectionSyntax, t.link, us).1)
    ensures var (link, events) := ConsumeUnits(SectionSyntax, t.link, us);
            var (last, (registered, c', changes)) := HandleEvents(maker, kind, t.last, t.registered, c, events);
            ConsumeTables(maker, kind, t, c, ps) == (TableFilter(link, last, registered), c', changes)
    decreases |ps|
  {
    hide Consume, GoodEvent, HandleEvents, Carries;
    UnitsGood(t.link, us);
    if ps == [] {
      HandleNone(maker, kind, t.last, t.registered, c);
    } else {
      CarriedStep(maker, kind, t, c, ps[0], us[0]);
      var first := ConsumeTable(maker, kind, t, c, ps[0]);
      assert CarryAll(ps[1..], us[1..]) by { CarryRest(ps, us); }
      TablesHandleEvents(maker, kind, first.0, first.1, ps[1..], us[1..]);
      var e1 := Consume(SectionSyntax, t.link, us[0].start, Ok(Some(us[0].data))).1;
      ConsumeGood(t.link, us[0].start, Ok(Some(us[0].data)));
      UnitsGood(first.0.link, us[1..]);
      HandleConcat(maker, kind, t.last, t.registered, c, e1, ConsumeUnits(SectionSyntax, first.0.link, us[1..]).1);
    }
  }

  lemma CarryRest(ps: seq<Packet>, us: seq<Unit>)
    requires CarryAll(ps, us) && ps != []
    ensures CarryAll(ps[1..], us[1..])
  {
    hide Carries;
    assert forall i :: 0 <= i < |ps| - 1 ==> ps[1..][i] == ps[i + 1] && us[1..][i] == us[i + 1];
  }

  lemma CarriedStep<F, C>(maker: Maker<F, C>, kind: TableKind, t: TableFilter, c: C, p: Packet, u: Unit)
    requires Carries(p, u)
    ensures AllGood(Consume(SectionSyntax, t.link, u.start, Ok(Some(u.data))).1)
    ensures var (link, events) := Consume(SectionSyntax, t.link, u.start, Ok(Some(u.data)));
            var (last, (registered, c', changes)) := HandleEvents(maker, kind, t.last, t.registered, c, events);
            ConsumeTable(maker, kind, t, c, p) == (TableFilter(link, last, registered), c', changes)
  {
    hide Consume, GoodEvent, HandleEvents;
    ConsumeGood(t.link, u.start, Ok(Some(u.data)));
  }

  // ----- correct tables -----

  /** A section that the framer, the CRC check and the PAT processor all accept. */
  ghost predicate PatSection(s: seq<byte>) {
    && ValidSection(SectionSyntax, s)
    && 12 <= |s| <= HEADER_SIZE + SECTION_LENGTH_LIMIT
    && s[0] == 0x00
    && Sum32(s) == 0
  }

  ghost predicate AllPat(ss: seq<seq<byte>>) {
    forall s :: s in ss ==> PatSection(s)
  }

  /** Each table has another version than the one before it. */
  ghost predicate VersionsDiffer(ss: seq<seq<byte>>) {
    forall i :: 0 < i < |ss| && |ss[i - 1]| >= 6 && |ss[i]| >= 6 ==> Version(ss[i - 1]) != Version(ss[i])
  }

  function ItemPids(items: seq<Item>): set<Pid> {
    set i | 0 <= i < |items| && items[i].Entry? :: items[i].pid
  }

  /** The PIDs that a table names. */
  function NamedBy(s: seq<byte>): set<Pid>
    requires |s| >= 12
  {
    ItemPids(PatItems(Programs(TableBody(s))))
  }

  function ArrivalOf(s: seq<byte>): Arrival
    requires |s| >= HEADER_SIZE
  {
    Arrival(ParseHeader(s[..HEADER_SIZE]), s)
  }

  ghost function Arrivals(ss: seq<seq<byte>>): (arrivals: seq<Arrival>)
    requires AllPat(ss)
    ensures |arrivals| == |ss| && LongEnough(arrivals)
    ensures forall i :: 0 <= i < |ss| ==> |ss[i]| >= 12 && arrivals[i] == ArrivalOf(ss[i])
  {
    assert forall i :: 0 <= i < |ss| ==> ss[i] in ss;
    seq(|ss|, i requires 0 <= i < |ss| => assert ss[i] in ss; ArrivalOf(ss[i]))
  }

  lemma AllPatRest(ss: seq<seq<byte>>)
    requires AllPat(ss) && ss != []
    ensures PatSection(ss[0]) && |ss[0]| >= 12 && AllPat(ss[1..]) && AllValid(SectionSyntax, ss)
    ensures Arrivals(ss)[1..] == Arrivals(ss[1..]) && Arrivals(ss)[0] == ArrivalOf(ss[0])
  {
    hide ValidSection, Version;
    forall s | s in ss[1..] ensures PatSection(s) { assert s in ss; }
    assert ss[0] in ss;
  }

  lemma VersionsDifferRest(ss: seq<seq<byte>>)
    requires VersionsDiffer(ss) && ss != []
    ensures VersionsDiffer(ss[1..])
  {
    hide Version;
    forall i | 0 < i < |ss[1..]| && |ss[1..][i - 1]| >= 6 && |ss[1..][i]| >= 6
      ensures Version(ss[1..][i - 1]) != Version(ss[1..][i])
    {
      assert ss[1..][i - 1] == ss[i] && ss[1..][i] == ss[i + 1];
    }
  }

  lemma PatDelivery(s: seq<byte>)
    requires PatSection(s)
    ensures |s| >= 12 && GoodEvent(Delivery(s))
    ensures CheckCrc(0, ParseHeader(s[..HEADER_SIZE]), s) == Output.Table(ParseHeader(s[..HEADER_SIZE]), s)
  {
    hide Sum32, ParseHeader;
  }

  /** Tables of differing versions all reach the processor, which takes them in turn. */
  lemma {:induction false} TablesHandled<F, C>(maker: Maker<F, C>, last: Option<byte>, w: Plant<F, C>, ss: seq<seq<byte>>)
    requires AllPat(ss) && AllValid(SectionSyntax, ss) && VersionsDiffer(ss)
    requires ss != [] && |ss[0]| >= 6 ==> last != Some(Version(ss[0]))
    ensures AllGood(Deliveries(SectionSyntax, ss))
    ensures var r := HandleEvents(maker, PatTable, last, w.registered, w.ctx, Deliveries(SectionSyntax, ss)).1;
            ArriveAll(maker, PatTable, w, Arrivals(ss)) == Plant(r.0, ApplyAll(w.filters, r.2), r.1)
    decreases |ss|
  {
    hide PatSection, ValidSection, GoodEvent, HandleEvents, ProcessSection, Version;
    if ss == [] {
      assert Deliveries(SectionSyntax, ss) == [];
      HandleNone(maker, PatTable, last, w.registered, w.ctx);
    } else {
      var s, more := ss[0], ss[1..];
      AllPatRest(ss);
      VersionsDifferRest(ss);
      assert ss == [s] + more;
      DeliveriesCons(SectionSyntax, s, more);
      PatDelivery(s);
      NextDiffers(ss);
      var e := Delivery(s);
      HandleSingle(maker, PatTable, last, w.registered, w.ctx, e);
      var first := HandleEvents(maker, PatTable, last, w.registered, w.ctx, [e]);
      var w1 := Plant(first.1.0, ApplyAll(w.filters, first.1.2), first.1.1);
      assert w1 == Arrive(maker, PatTable, w, ArrivalOf(s));
      TablesHandled(maker, Some(Version(s)), w1, more);
      AllGoodConcat([e], Deliveries(SectionSyntax, more));
      HandleConcat(maker, PatTable, last, w.registered, w.ctx, [e], Deliveries(SectionSyntax, more));
      var second := HandleEvents(maker, PatTable, first.0, first.1.0, first.1.1, Deliveries(SectionSyntax, more));
      ApplyConcat(w.filters, first.1.2, second.1.2);
    }
  }

  lemma NextDiffers(ss: seq<seq<byte>>)
    requires AllPat(ss) && VersionsDiffer(ss) && ss != []
    ensures |ss[0]| >= 12
    ensures |ss| > 1 && |ss[1]| >= 6 ==> Version(ss[0]) != Version(ss[1])
  {
    hide ValidSection, Version;
    assert ss[0] in ss;
  }

  // ----- no table names PID 0 -----

  lemma {:induction false} BuiltPids<F, C>(maker: Maker<F, C>, c: C, items: seq<Item>)
    ensures Pids(Build(maker, c, items).1) == ItemPids(items)
    decreases |items|
  {
    if items != [] {
      var rest := items[1..];
      assert ItemPids(items) == (if items[0].Entry? then {items[0].pid} else {}) + ItemPids(rest) by {
        ItemPidsFirst(items);
      }
      match items[0] {
        case Bad(e) => BuiltPids(maker, maker.report(c, e), rest);
        case Entry(pid, request) =>
          var (f, c') := maker.construct(c, request);
          var built := Build(maker, c', rest).1;
          BuiltPids(maker, c', rest);
          PidsFirst(pid, f, built);
      }
    }
  }

  lemma ItemPidsFirst(items: seq<Item>)
    requires items != []
    ensures ItemPids(items) == (if items[0].Entry? then {items[0].pid} else {}) + ItemPids(items[1..])
  {
    var rest := items[1..];
    forall p | p in ItemPids(rest)
      ensures p in ItemPids(items)
    {
      var i :| 0 <= i < |rest| && rest[i].Entry? && rest[i].pid == p;
      assert items[i + 1] == rest[i];
    }
    forall p | p in ItemPids(items)
      ensures p in (if items[0].Entry? then {items[0].pid} else {}) + ItemPids(rest)
    {
      var i :| 0 <= i < |items| && items[i].Entry? && items[i].pid == p;
      if i > 0 {
        assert rest[i - 1] == items[i];
      }
    }
  }

  lemma PidsFirst<F>(pid: Pid, f: F, built: Built<F>)
    ensures Pids([(pid, f)] + built) == {pid} + Pids(built)
  {
    var all := [(pid, f)] + built;
    assert all[0].0 == pid;
    forall p | p in Pids(built)
      ensures p in Pids(all)
    {
      var i :| 0 <= i < |built| && built[i].0 == p;
      assert all[i + 1].0 == p;
    }
  }

  lemma {:induction false} InsertionsAvoid<F>(built: Built<F>, pid: Pid)
    requires pid !in Pids(built)
    ensures Avoids(Insertions(built), pid)
  {
    if built != [] {
      assert built == [built[0]] + built[1..];
      PidsFirst(built[0].0, built[0].1, built[1..]);
      InsertionsAvoid(built[1..], pid);
    }
  }

  lemma TableAvoids<F, C>(maker: Maker<F, C>, registered: set<Pid>, c: C, items: seq<Item>, pid: Pid)
    requires pid !in registered && pid !in ItemPids(items)
    ensures Avoids(NewTable(maker, registered, c, items).2, pid)
    ensures NewTable(maker, registered, c, items).0 == ItemPids(items)
  {
    hide Insertions, Outdated, ItemPids, Pids;
    var built := Build(maker, c, items).1;
    BuiltPids(maker, c, items);
    InsertionsAvoid(built, pid);
    OutdatedIs(registered, Pids(built), 0);
  }

  ghost predicate NoneNamesPid0(ss: seq<seq<byte>>) {
    forall s :: s in ss ==> |s| >= 12 && 0 !in NamedBy(s)
  }

  lemma PatAccepted(s: seq<byte>)
    requires PatSection(s)
    ensures |s| >= 12
    ensures Examine(PatTable, ParseHeader(s[..HEADER_SIZE]), s) == Ok(PatItems(Programs(TableBody(s))))
  {
    hide Sum32, Programs;
  }

  lemma AvoidsConcat<F>(a: seq<Change<F>>, b: seq<Change<F>>, pid: Pid)
    requires Avoids(a, pid) && Avoids(b, pid)
    ensures Avoids(a + b, pid)
  {
  }

  /** If no table names PID 0, no change touches it. */
  lemma {:induction false} TablesAvoid<F, C>(maker: Maker<F, C>, last: Option<byte>, registered: set<Pid>, c: C, ss: seq<seq<byte>>)
    requires AllPat(ss) && AllValid(SectionSyntax, ss) && VersionsDiffer(ss) && NoneNamesPid0(ss)
    requires 0 !in registered
    requires ss != [] && |ss[0]| >= 6 ==> last != Some(Version(ss[0]))
    ensures AllGood(Deliveries(SectionSyntax, ss))
    ensures Avoids(HandleEvents(maker, PatTable, last, registered, c, Deliveries(SectionSyntax, ss)).1.2, 0)
    decreases |ss|
  {
    hide PatSection, ValidSection, GoodEvent, HandleEvents, NamedBy, Version, Examine, NewTable, Avoids;
    if ss == [] {
      assert Deliveries(SectionSyntax, ss) == [];
      HandleNone(maker, PatTable, last, registered, c);
      assert Avoids<F>([], 0) by { AvoidsNone<F>(); }
    } else {
      var s, more := ss[0], ss[1..];
      AllPatRest(ss);
      VersionsDifferRest(ss);
      assert s in ss;
      assert ss == [s] + more;
      DeliveriesCons(SectionSyntax, s, more);
      PatDelivery(s);
      PatAccepted(s);
      NextDiffers(ss);
      var e := Delivery(s);
      HandleSingle(maker, PatTable, last, registered, c, e);
      var first := HandleEvents(maker, PatTable, last, registered, c, [e]);
      assert first.1 == NewTable(maker, registered, c, PatItems(Programs(TableBody(s))));
      assert NamedBy(s) == ItemPids(PatItems(Programs(TableBody(s)))) by { NamedByDef(s); }
      TableAvoids(maker, registered, c, PatItems(Programs(TableBody(s))), 0);
      TablesAvoid(maker, Some(Version(s)), first.1.0, first.1.1, more);
      AllGoodConcat([e], Deliveries(SectionSyntax, more));
      HandleConcat(maker, PatTable, last, registered, c, [e], Deliveries(SectionSyntax, more));
      AvoidsConcat(first.1.2, HandleEvents(maker, PatTable, first.0, first.1.0, first.1.1, Deliveries(SectionSyntax, more)).1.2, 0);
    }
  }

  lemma AvoidsNone<F>()
    ensures Avoids<F>([], 0)
  {
  }

  lemma NamedByDef(s: seq<byte>)
    requires |s| >= 12
    ensures NamedBy(s) == ItemPids(PatItems(Programs(TableBody(s))))
  {
  }

  /** The latest table's filters are for the PIDs it names, and every PID named is some table's. */
  lemma {:induction false} LatestNamed<F, C>(maker: Maker<F, C>, c: C, ss: seq<seq<byte>>, latest: map<Pid, F>, named: set<Pid>)
    requires AllPat(ss) && NoneNamesPid0(ss) && 0 !in named
    ensures var r := Latest(maker, PatTable, c, Arrivals(ss), latest, named);
            && 0 !in r.1
            && r.0.Keys == if ss == [] then latest.Keys else (assert ss[|ss| - 1] in ss; NamedBy(ss[|ss| - 1]))
    decreases |ss|
  {
    hide PatSection, NamedBy, Examine, FiltersOf, Version;
    if ss != [] {
      var s := ss[0];
      AllPatRest(ss);
      PatAccepted(s);
      assert s in ss;
      var items := PatItems(Programs(TableBody(s)));
      var (c', built) := Build(maker, c, items);
      BuiltPids(maker, c, items);
      FiltersOfIsLast(built);
      NamedByDef(s);
      LatestNamed(maker, c', ss[1..], FiltersOf(built), named + Pids(built));
      if |ss| > 1 {
        assert ss[1..][|ss| - 2] == ss[|ss| - 1];
      }
    }
  }

  // ----- the theorem -----

  lemma PrefixPat(ss: seq<seq<byte>>, done: seq<seq<byte>>, rest: seq<seq<byte>>)
    requires ss == done + rest && AllPat(ss) && VersionsDiffer(ss) && NoneNamesPid0(ss)
    ensures AllPat(done) && VersionsDiffer(done) && NoneNamesPid0(done) && AllValid(SectionSyntax, ss)
  {
    hide ValidSection, Version, NamedBy;
    forall s | s in done ensures PatSection(s) && |s| >= 12 && 0 !in NamedBy(s) { assert s in ss; }
    forall i | 0 < i < |done| && |done[i - 1]| >= 6 && |done[i]| >= 6
      ensures Version(done[i - 1]) != Version(done[i])
    {
      assert ss[i] == done[i] && ss[i - 1] == done[i - 1];
    }
  }

  /** Push packets of PID 0, in any legal packetisation of any CRC-correct tables of which none
      repeats the version before it or names PID 0, at a demultiplexer whose PID-0 filter is a
      new PAT filter. Whatever has been sent so far, the tables completed are `done`: among the
      PIDs they ever named, those with a filter are exactly the latest table's, each the one
      built for its last entry; all other PIDs keep what they had, and PID 0 its PAT filter. */
  lemma PatEndToEnd<U, C>(a: App<U, C>, w: World<Filter<U>, C>, sections: seq<seq<byte>>, plan: seq<Chunk>, ps: seq<Packet>)
    requires AllPat(sections) && VersionsDiffer(sections) && NoneNamesPid0(sections)
    requires LegalPlan(Sender([], 0, sections), plan)
    requires CarryAll(ps, Packetise(Sender([], 0, sections), plan)) && AllFor(ps, 0)
    requires 0 in w.filters && w.filters[0] == PatFilter(NewFilter)
    ensures var done := Completed(Sender([], 0, sections), plan);
            && AllPat(done)
            && sections == done + Outstanding(Finally(Sender([], 0, sections), plan))
            && var w' := PushAll(EnvOf(a), w, ps);
               var (latest, named) := Latest(a.maker, PatTable, w.ctx, Arrivals(done), map[], {});
               && 0 in w'.filters && w'.filters[0].PatFilter?
               && 0 !in named
               && latest.Keys == (if done == [] then {} else (assert done[|done| - 1] in done; NamedBy(done[|done| - 1])))
               && Reconciled(w.filters - {0}, w'.filters - {0}, latest.Keys, latest, named)
  {
    hide PatSection, ValidSection, Legal, Consume, HandleEvents, ConsumeTables, NamedBy, IsFor, Carries, Version;
    var x := Sender([], 0, sections);
    var units := Packetise(x, plan);
    var done := Completed(x, plan);
    assert sections + [] == sections;
    PrefixPat(sections, sections, []);
    PlanConsumed(SectionSyntax, x, plan, false);
    assert Outstanding(x) == sections;
    PrefixPat(sections, done, Outstanding(Finally(x, plan)));
    TablesHandleEvents(a.maker, PatTable, NewFilter, w.ctx, ps, units);
    TablesHandled(a.maker, None, Plant({}, w.filters, w.ctx), done);
    TablesAvoid(a.maker, None, {}, w.ctx, done);
    TablePackets(a, w, ps, 0);
    TablesReconciled(a.maker, PatTable, w.filters, w.ctx, Arrivals(done));
    LatestNamed<Filter<U>, C>(a.maker, w.ctx, done, map[], {});
    var w' := PushAll(EnvOf(a), w, ps);
    var r := ConsumeTables(a.maker, PatTable, NewFilter, w.ctx, ps);
    var m := ApplyAll(w.filters, r.2);
    var (latest, named) := Latest(a.maker, PatTable, w.ctx, Arrivals(done), map[], {});
    ReconciledWithout(w.filters, m, latest, named, PatFilter(r.0), 0);
  }

  lemma ReconciledWithout<F>(m0: map<Pid, F>, m: map<Pid, F>, latest: map<Pid, F>, named: set<Pid>, f: F, pid: Pid)
    requires Reconciled(m0, m, latest.Keys, latest, named) && pid !in named
    ensures Reconciled(m0 - {pid}, m[pid := f] - {pid}, latest.Keys, latest, named)
  {
  }

  /** In particular, from a new demultiplexer, when everything has been sent: filters for PID 0
      and the PIDs of the last table, and no others. */
  lemma ExactlyTheLastTable<U, C>(a: App<U, C>, w: World<Filter<U>, C>, sections: seq<seq<byte>>, plan: seq<Chunk>, ps: seq<Packet>)
    requires sections != [] && AllPat(sections) && VersionsDiffer(sections) && NoneNamesPid0(sections)
    requires LegalPlan(Sender([], 0, sections), plan) && Outstanding(Finally(Sender([], 0, sections), plan)) == []
    requires CarryAll(ps, Packetise(Sender([], 0, sections), plan)) && AllFor(ps, 0)
    requires w.filters == map[0 := PatFilter(NewFilter)]
    ensures assert sections[|sections| - 1] in sections;
            PushAll(EnvOf(a), w, ps).filters.Keys == {0} + NamedBy(sections[|sections| - 1])
  {
    hide PatSection, Legal, NamedBy, IsFor, Carries, EnvOf, VersionsDiffer, PushAll, Reconciled, Latest;
    PatEndToEnd(a, w, sections, plan, ps);
    var done := Completed(Sender([], 0, sections), plan);
    assert done == sections by {
      assert done + [] == done;
    }
    var w' := PushAll(EnvOf(a), w, ps);
    var (latest, named) := Latest(a.maker, PatTable, w.ctx, Arrivals(done), map[], {});
    OnlyLatest(w.filters, w'.filters, latest, named, PatFilter(NewFilter));
  }

  lemma OnlyLatest<F>(m0: map<Pid, F>, m: map<Pid, F>, latest: map<Pid, F>, named: set<Pid>, f: F)
    requires m0 == map[0 := f] && 0 in m
    requires Reconciled(m0 - {0}, m - {0}, latest.Keys, latest, named)
    ensures m.Keys == {0} + latest.Keys
  {
    forall p: Pid
      ensures p in m.Keys <==> p in {0} + latest.Keys
    {
      if p != 0 {
        assert p in m - {0} <==> p in m;
        assert p !in m0 - {0};
      }
    }
  }
}
