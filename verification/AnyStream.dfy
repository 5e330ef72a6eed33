/** The filters that any stream on PID 0 leaves: whatever the packets, whatever is lost, repeated
    or corrupt, the table that counts is the latest that reached the processor. */
module AnyStream {
  import opened Bytes
  import opened Packets
  import opened Sections
  import opened Framers
  import opened Packetiser
  import opened Filters
  import opened Demultiplexer
  import opened Processors
  import opened TableProcessors
  import opened TableFilters
  import opened Reconciliation
  import opened EndToEnd

  // ----- what reaches the processor -----

  /** The PIDs of the latest table accepted, or `before` if there is none. */
  function LatestPids(kind: TableKind, outs: seq<Output>, before: set<Pid>): set<Pid>
    requires Checked(outs)
    decreases |outs|
  {
    if outs == [] then before
    else
      assert outs[0] in outs;
      LatestPids(kind, outs[1..],
                 if outs[0].Table? && Examine(kind, outs[0].header, outs[0].data).Ok?
                 then ItemPids(Examine(kind, outs[0].header, outs[0].data).value) else before)
  }

  /** Its filters, and every PID named so far, found without looking at any filter map. */
  function LatestFilters<F, C>(maker: Maker<F, C>, kind: TableKind, c: C, outs: seq<Output>,
                               latest: map<Pid, F>, named: set<Pid>): (map<Pid, F>, set<Pid>)
    requires Checked(outs)
    decreases |outs|
  {
    if outs == [] then (latest, named)
    else
      assert outs[0] in outs;
      match outs[0]
      case Fault(e) => LatestFilters(maker, kind, maker.report(c, e), outs[1..], latest, named)
      case Table(header, data) =>
        match Examine(kind, header, data)
        case Err(e) => LatestFilters(maker, kind, maker.report(c, e), outs[1..], latest, named)
        case Ok(items) =>
          var (c', built) := Build(maker, c, items);
          LatestFilters(maker, kind, c', outs[1..], FiltersOf(built), named + Pids(built))
  }

  /** No accepted table names `pid`. */
  ghost predicate Spares(kind: TableKind, outs: seq<Output>, pid: Pid)
    requires Checked(outs)
  {
    forall o :: o in outs && o.Table? && Examine(kind, o.header, o.data).Ok? ==>
      pid !in ItemPids(Examine(kind, o.header, o.data).value)
  }

  lemma OneApplied<F, C>(maker: Maker<F, C>, registered: set<Pid>, c: C, items: seq<Item>, m0: map<Pid, F>, m: map<Pid, F>,
                         latest: map<Pid, F>, named: set<Pid>)
    requires Reconciled(m0, m, registered, latest, named)
    ensures var (c', built) := Build(maker, c, items);
            var r := NewTable(maker, registered, c, items);
            && r.1 == c'
            && Reconciled(m0, ApplyAll(m, r.2), r.0, FiltersOf(built), named + Pids(built))
  {
    hide Reconciled, FiltersOf, ApplyAll;
    var built := Build(maker, c, items).1;
    TableApplied(maker, registered, c, items, m);
    FiltersOfIsLast(built);
    SameRegistered(m0, m, registered, latest, named);
    ReconcileOne(m0, m, registered, latest, named, FiltersOf(built));
  }

  lemma SameRegistered<F>(m0: map<Pid, F>, m: map<Pid, F>, registered: set<Pid>, latest: map<Pid, F>, named: set<Pid>)
    requires Reconciled(m0, m, registered, latest, named)
    ensures registered == latest.Keys
  {
  }

  lemma {:induction false} OutputsReconciled<F, C>(maker: Maker<F, C>, kind: TableKind, registered: set<Pid>, c: C, outs: seq<Output>,
                                                   m0: map<Pid, F>, m: map<Pid, F>, latest: map<Pid, F>, named: set<Pid>)
    requires Checked(outs) && Reconciled(m0, m, registered, latest, named)
    ensures var r := HandleOutputs(maker, kind, registered, c, outs);
            var (latest', named') := LatestFilters(maker, kind, c, outs, latest, named);
            Reconciled(m0, ApplyAll(m, r.2), r.0, latest', named')
    decreases |outs|
  {
    hide Reconciled, Examine, FiltersOf, NewTable, ApplyAll;
    if outs == [] {
      NoneApplied(m);
    } else {
      assert outs[0] in outs;
      match outs[0] {
        case Fault(e) =>
          OutputsReconciled(maker, kind, registered, maker.report(c, e), outs[1..], m0, m, latest, named);
        case Table(header, data) =>
          var first := ProcessSection(maker, kind, registered, c, header, data);
          var rest := HandleOutputs(maker, kind, first.0, first.1, outs[1..]);
          NoneApplied(m);
          ApplyConcat(m, first.2, rest.2);
          match Examine(kind, header, data) {
            case Err(e) => OutputsReconciled(maker, kind, first.0, first.1, outs[1..], m0, m, latest, named);
            case Ok(items) =>
              OneApplied(maker, registered, c, items, m0, m, latest, named);
              var built := Build(maker, c, items).1;
              OutputsReconciled(maker, kind, first.0, first.1, outs[1..], m0, ApplyAll(m, first.2), FiltersOf(built), named + Pids(built));
          }
      }
    }
  }

  lemma NoneApplied<F>(m: map<Pid, F>)
    ensures ApplyAll<F>(m, []) == m
  {
  }

  /** The registered PIDs are those of the latest accepted table, whatever the context did. */
  lemma {:induction false} RegisteredAre<F, C>(maker: Maker<F, C>, kind: TableKind, registered: set<Pid>, c: C, outs: seq<Output>)
    requires Checked(outs)
    ensures HandleOutputs(maker, kind, registered, c, outs).0 == LatestPids(kind, outs, registered)
    decreases |outs|
  {
    hide Examine, ItemPids, Pids;
    if outs != [] {
      assert outs[0] in outs;
      match outs[0] {
        case Fault(e) => RegisteredAre(maker, kind, registered, maker.report(c, e), outs[1..]);
        case Table(header, data) =>
          var first := ProcessSection(maker, kind, registered, c, header, data);
          match Examine(kind, header, data) {
            case Err(e) =>
            case Ok(items) => BuiltPids(maker, c, items);
          }
          RegisteredAre(maker, kind, first.0, first.1, outs[1..]);
      }
    }
  }

  lemma {:induction false} OutputsAvoid<F, C>(maker: Maker<F, C>, kind: TableKind, registered: set<Pid>, c: C, outs: seq<Output>, pid: Pid)
    requires Checked(outs) && Spares(kind, outs, pid) && pid !in registered
    ensures Avoids(HandleOutputs(maker, kind, registered, c, outs).2, pid)
    decreases |outs|
  {
    hide Examine, NewTable, Avoids, ItemPids;
    if outs == [] {
      NoChanges<F>(pid);
    } else {
      assert outs[0] in outs && Spares(kind, outs[1..], pid);
      match outs[0] {
        case Fault(e) => OutputsAvoid(maker, kind, registered, maker.report(c, e), outs[1..], pid);
        case Table(header, data) =>
          var first := ProcessSection(maker, kind, registered, c, header, data);
          match Examine(kind, header, data) {
            case Err(e) => NoChanges<F>(pid);
            case Ok(items) => TableAvoids(maker, registered, c, items, pid);
          }
          OutputsAvoid(maker, kind, first.0, first.1, outs[1..], pid);
          AvoidsConcat(first.2, HandleOutputs(maker, kind, first.0, first.1, outs[1..]).2, pid);
      }
    }
  }

  lemma NoChanges<F>(pid: Pid)
    ensures Avoids<F>([], pid)
  {
  }

  lemma {:induction false} LatestSpares<F, C>(maker: Maker<F, C>, kind: TableKind, c: C, outs: seq<Output>,
                                              latest: map<Pid, F>, named: set<Pid>, pid: Pid)
    requires Checked(outs) && Spares(kind, outs, pid) && pid !in named
    ensures var r := LatestFilters(maker, kind, c, outs, latest, named);
            pid !in r.1 && r.0.Keys == LatestPids(kind, outs, latest.Keys)
    decreases |outs|
  {
    hide Examine, FiltersOf, ItemPids, Pids;
    if outs != [] {
      assert outs[0] in outs && Spares(kind, outs[1..], pid);
      match outs[0] {
        case Fault(e) => LatestSpares(maker, kind, maker.report(c, e), outs[1..], latest, named, pid);
        case Table(header, data) =>
          match Examine(kind, header, data) {
            case Err(e) => LatestSpares(maker, kind, maker.report(c, e), outs[1..], latest, named, pid);
            case Ok(items) =>
              var (c', built) := Build(maker, c, items);
              BuiltPids(maker, c, items);
              FiltersOfIsLast(built);
              LatestSpares(maker, kind, c', outs[1..], FiltersOf(built), named + Pids(built), pid);
          }
      }
    }
  }

  // ----- packets -----

  /** The framer over a list of packets, with whatever payloads they have. */
  function ConsumePackets(mode: Mode, l: Link, ps: seq<Packet>): (r: LinkOutcome)
    requires Ready(mode, l)
    ensures Ready(mode, r.0)
    decreases |ps|
  {
    if ps == [] then (l, [])
    else
      var first := Consume(mode, l, UnitStart(ps[0]), PayloadOf(ps[0]));
      var rest := ConsumePackets(mode, first.0, ps[1..]);
      (rest.0, first.1 + rest.1)
  }

  lemma {:induction false} PacketsGood(l: Link, ps: seq<Packet>)
    requires Ready(SectionSyntax, l)
    ensures AllGood(ConsumePackets(SectionSyntax, l, ps).1)
    decreases |ps|
  {
    hide Consume, GoodEvent;
    if ps != [] {
      ConsumeGood(l, UnitStart(ps[0]), PayloadOf(ps[0]));
      var first := Consume(SectionSyntax, l, UnitStart(ps[0]), PayloadOf(ps[0]));
      PacketsGood(first.0, ps[1..]);
      AllGoodConcat(first.1, ConsumePackets(SectionSyntax, first.0, ps[1..]).1);
    }
  }

  /** A table filter over packets handles all the events of its framer. */
  lemma {:induction false} TablesHandlePackets<F, C>(maker: Maker<F, C>, kind: TableKind, t: TableFilter, c: C, ps: seq<Packet>)
    ensures AllGood(ConsumePackets(SectionSyntax, t.link, ps).1)
    ensures var (link, events) := ConsumePackets(SectionSyntax, t.link, ps);
            var (last, (registered, c', changes)) := HandleEvents(maker, kind, t.last, t.registered, c, events);
            ConsumeTables(maker, kind, t, c, ps) == (TableFilter(link, last, registered), c', changes)
    decreases |ps|
  {
    hide Consume, GoodEvent, HandleEvents;
    PacketsGood(t.link, ps);
    if ps == [] {
      HandleNone(maker, kind, t.last, t.registered, c);
    } else {
      var first := ConsumeTable(maker, kind, t, c, ps[0]);
      TablesHandlePackets(maker, kind, first.0, first.1, ps[1..]);
      ConsumeGood(t.link, UnitStart(ps[0]), PayloadOf(ps[0]));
      PacketsGood(first.0.link, ps[1..]);
      var e1 := Consume(SectionSyntax, t.link, UnitStart(ps[0]), PayloadOf(ps[0])).1;
      HandleConcat(maker, kind, t.last, t.registered, c, e1, ConsumePackets(SectionSyntax, first.0.link, ps[1..]).1);
    }
  }

  /** What reaches a new table filter's processor, by the rule that looks back for versions. */
  ghost function Reaching(pid: Pid, ps: seq<Packet>): (outs: seq<Output>)
    ensures Checked(outs)
  {
    var events := ConsumePackets(SectionSyntax, Fresh, ps).1;
    PacketsGood(Fresh, ps);
    PipelineExact(pid, events);
    RelayChecked(pid, None, events);
    Expected(pid, events, |events|)
  }

  lemma NewFilterOver<F, C>(maker: Maker<F, C>, kind: TableKind, c: C, ps: seq<Packet>)
    ensures var r, h := ConsumeTables(maker, kind, NewFilter, c, ps), HandleOutputs(maker, kind, {}, c, Reaching(PidFor(kind), ps));
            r.1 == h.1 && r.2 == h.2 && r.0.registered == h.0
  {
    hide ConsumePackets, HandleOutputs, Relay, Expected, ConsumeTables;
    TablesHandlePackets(maker, kind, NewFilter, c, ps);
    PipelineExact(PidFor(kind), ConsumePackets(SectionSyntax, Fresh, ps).1);
  }

  /** Push any packets of one PID at a demultiplexer whose filter there is a new PAT or PMT filter:
      lost ones, repeated tables, corrupt sections, what you will, so long as no table that is
      accepted names that PID. Among the PIDs that accepted tables named, those with a filter
      are exactly the latest one's, each the one built for its last entry; all other PIDs keep
      what they had, and this one its table filter. */
  lemma TableAnyPackets<U, C>(a: App<U, C>, w: World<Filter<U>, C>, ps: seq<Packet>, pid: Pid)
    requires AllFor(ps, pid) && pid in w.filters && IsTable(w.filters[pid]) && StateOf(w.filters[pid]) == NewFilter
    requires Spares(KindOf(w.filters[pid]), Reaching(PidFor(KindOf(w.filters[pid])), ps), pid)
    ensures var kind := KindOf(w.filters[pid]);
            var w', outs := PushAll(EnvOf(a), w, ps), Reaching(PidFor(kind), ps);
            var (latest, named) := LatestFilters(a.maker, kind, w.ctx, outs, map[], {});
            && pid in w'.filters && IsTable(w'.filters[pid]) && KindOf(w'.filters[pid]) == kind
            && w'.ctx == HandleOutputs(a.maker, kind, {}, w.ctx, outs).1
            && pid !in named && latest.Keys == LatestPids(kind, outs, {})
            && Reconciled(w.filters - {pid}, w'.filters - {pid}, latest.Keys, latest, named)
            && w'.filters - {pid} == ApplyAll(w.filters, HandleOutputs(a.maker, kind, {}, w.ctx, outs).2) - {pid}
  {
    hide AllFor, Reaching, HandleOutputs, LatestFilters, LatestPids, Reconciled, PushAll, ConsumeTables, Spares, Avoids, ApplyAll,
      EnvOf;
    var f := w.filters[pid];
    var kind := KindOf(f);
    var outs := Reaching(PidFor(kind), ps);
    var r := ConsumeTables(a.maker, kind, NewFilter, w.ctx, ps);
    NewFilterOver(a.maker, kind, w.ctx, ps);
    OutputsAvoid(a.maker, kind, {}, w.ctx, outs, pid);
    TablePackets(a, w, ps, pid);
    NoneNamed(w.filters);
    OutputsReconciled(a.maker, kind, {}, w.ctx, outs, w.filters, w.filters, map[], {});
    LatestSpares<Filter<U>, C>(a.maker, kind, w.ctx, outs, map[], {}, pid);
    var m := ApplyAll(w.filters, r.2);
    var (latest, named) := LatestFilters(a.maker, kind, w.ctx, outs, map[], {});
    SameRegistered(w.filters, m, r.0.registered, latest, named);
    ReconciledWithout(w.filters, m, latest, named, WithState(f, r.0), pid);
    assert m[pid := WithState(f, r.0)] - {pid} == m - {pid};
  }

  /** So for the program association table on PID 0. */
  lemma PatAnyPackets<U, C>(a: App<U, C>, w: World<Filter<U>, C>, ps: seq<Packet>)
    requires AllFor(ps, 0) && 0 in w.filters && w.filters[0] == PatFilter(NewFilter)
    requires Spares(PatTable, Reaching(0, ps), 0)
    ensures var w', outs := PushAll(EnvOf(a), w, ps), Reaching(0, ps);
            var (latest, named) := LatestFilters(a.maker, PatTable, w.ctx, outs, map[], {});
            && 0 in w'.filters && w'.filters[0].PatFilter?
            && 0 !in named && latest.Keys == LatestPids(PatTable, outs, {})
            && Reconciled(w.filters - {0}, w'.filters - {0}, latest.Keys, latest, named)
  {
    hide AllFor, Reaching, HandleOutputs, LatestFilters, LatestPids, Reconciled, PushAll, Spares, ApplyAll, EnvOf;
    TableAnyPackets(a, w, ps, 0);
  }

  /** And for the program map table of a program, on its own PID: exactly the streams of the
      latest map accepted have a filter. */
  lemma PmtAnyPackets<U, C>(a: App<U, C>, w: World<Filter<U>, C>, ps: seq<Packet>, pid: Pid)
    requires AllFor(ps, pid) && pid in w.filters && w.filters[pid] == PmtFilter(pid, NewFilter)
    requires Spares(PmtTable(pid), Reaching(pid, ps), pid)
    ensures var w', outs := PushAll(EnvOf(a), w, ps), Reaching(pid, ps);
            var (latest, named) := LatestFilters(a.maker, PmtTable(pid), w.ctx, outs, map[], {});
            && pid in w'.filters && w'.filters[pid].PmtFilter?
            && pid !in named && latest.Keys == LatestPids(PmtTable(pid), outs, {})
            && Reconciled(w.filters - {pid}, w'.filters - {pid}, latest.Keys, latest, named)
  {
    hide AllFor, Reaching, HandleOutputs, LatestFilters, LatestPids, Reconciled, PushAll, Spares, ApplyAll, EnvOf;
    TableAnyPackets(a, w, ps, pid);
  }

  lemma {:induction false} CarriedPackets(mode: Mode, l: Link, ps: seq<Packet>, us: seq<Unit>)
    requires Ready(mode, l) && CarryAll(ps, us)
    ensures ConsumePackets(mode, l, ps) == ConsumeUnits(mode, l, us)
    decreases |ps|
  {
    hide Consume, CarryAll;
    CarriedFirst(ps, us);
    if ps != [] {
      CarryRest(ps, us);
      CarriedPackets(mode, Consume(mode, l, us[0].start, Ok(Some(us[0].data))).0, ps[1..], us[1..]);
    }
  }

  lemma CarriedFirst(ps: seq<Packet>, us: seq<Unit>)
    requires CarryAll(ps, us)
    ensures |ps| == |us|
    ensures ps != [] ==> UnitStart(ps[0]) == us[0].start && PayloadOf(ps[0]) == Ok(Some(us[0].data))
  {
    hide PayloadOf, UnitStart;
    assert ps != [] ==> Carries(ps[0], us[0]);
  }

  /** In particular for any sections that the framer accepts, with repeats and corrupt copies
      among them, in any legal packetisation: what reaches the processor is decided by the
      sections completed alone. */
  lemma SectionsReaching(pid: Pid, sections: seq<seq<byte>>, plan: seq<Chunk>, ps: seq<Packet>)
    requires AllValid(SectionSyntax, sections)
    requires LegalPlan(Sender([], 0, sections), plan) && CarryAll(ps, Packetise(Sender([], 0, sections), plan))
    ensures var done := Packetiser.Completed(Sender([], 0, sections), plan);
            && AllValid(SectionSyntax, done)
            && sections == done + Outstanding(Finally(Sender([], 0, sections), plan))
            && AllGood(Deliveries(SectionSyntax, done))
            && Reaching(pid, ps) == Expected(pid, Deliveries(SectionSyntax, done), |done|)
  {
    hide ValidSection, Legal, CarryAll, ConsumePackets, ConsumeUnits, Expected, Deliveries;
    var x := Sender([], 0, sections);
    PlanConsumed(SectionSyntax, x, plan, false);
    assert Outstanding(x) == sections;
    CarriedPackets(SectionSyntax, Fresh, ps, Packetise(x, plan));
    PacketsGood(Fresh, ps);
  }
}
