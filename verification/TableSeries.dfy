/** From lists of programs or streams to the filters in place: a series of program association
    tables, or of a program's maps, on its PID. */
module TableSeries {
  import opened Bytes
  import opened Sections
  import opened Packetiser
  import opened Crc
  import opened Filters
  import opened Demultiplexer
  import opened Processors
  import opened TableProcessors
  import opened TableFilters
  import opened EndToEnd
  import opened AnyStream
  import opened WireTables
  import opened Requests
  import opened Broadcast

  /** One table as issued. */
  datatype Issue = Issue(id: (byte, byte), version: byte, listing: Listing)

  ghost predicate ValidIssue(kind: TableKind, x: Issue, other: byte) {
    ValidListing(kind, x.listing, other) && x.version < 32
  }

  lemma ListingIsValid(kind: TableKind, x: Issue, other: byte)
    requires ValidIssue(kind, x, other)
    ensures ValidListing(kind, x.listing, other)
  {
  }

  ghost predicate ValidIssues(kind: TableKind, xs: seq<Issue>, other: byte) {
    && (forall x :: x in xs ==> ValidIssue(kind, x, other))
    && (forall i :: 0 < i < |xs| ==> xs[i - 1].version != xs[i].version)
  }

  ghost function SectionFor(kind: TableKind, x: Issue, other: byte): (s: seq<byte>)
    requires ValidIssue(kind, x, other)
    ensures |s| >= 12
  {
    EncodeWire(SectionOf(kind, x.listing, x.id, x.version, other))
  }

  lemma IssuesRest(kind: TableKind, xs: seq<Issue>, other: byte)
    requires ValidIssues(kind, xs, other) && xs != []
    ensures ValidIssue(kind, xs[0], other) && ValidIssues(kind, xs[1..], other)
    ensures |xs| > 1 ==> xs[0].version != xs[1].version
  {
    hide ValidIssue;
    assert ValidIssue(kind, xs[0], other) by { assert xs[0] in xs; }
    assert forall i :: 0 < i < |xs| - 1 ==> xs[1..][i - 1] == xs[i] && xs[1..][i] == xs[i + 1];
  }

  ghost function SectionsFor(kind: TableKind, xs: seq<Issue>, other: byte): (ss: seq<seq<byte>>)
    requires ValidIssues(kind, xs, other)
    ensures |ss| == |xs|
    decreases |xs|
  {
    if xs == [] then []
    else
      IssuesRest(kind, xs, other);
      [SectionFor(kind, xs[0], other)] + SectionsFor(kind, xs[1..], other)
  }

  /** All that is asked for a series, in order. */
  ghost function AllRequests(kind: TableKind, xs: seq<Issue>, other: byte): seq<Request>
    requires ValidIssues(kind, xs, other)
    decreases |xs|
  {
    if xs == [] then []
    else
      IssuesRest(kind, xs, other);
      RequestsOf(kind, xs[0].listing, other) + AllRequests(kind, xs[1..], other)
  }

  ghost predicate NamedIn(xs: seq<Issue>, q: Pid) {
    exists x :: x in xs && q in PidsOf(x.listing)
  }

  // ----- what reaches the processor -----

  lemma IssueAccepted(kind: TableKind, x: Issue, other: byte)
    requires ValidIssue(kind, x, other)
    ensures var s := SectionFor(kind, x, other);
            ValidSection(SectionSyntax, s) && Sum32(s) == 0 && Version(s) == x.version
  {
    hide EncodeWire, ParseHeader, Sum32, Version, TableBody;
    WireAccepted(SectionOf(kind, x.listing, x.id, x.version, other));
  }

  lemma {:induction false} SectionsValid(kind: TableKind, xs: seq<Issue>, other: byte)
    requires ValidIssues(kind, xs, other)
    ensures AllValid(SectionSyntax, SectionsFor(kind, xs, other))
    decreases |xs|
  {
    hide ValidIssue, SectionFor, ValidSection;
    if xs != [] {
      IssuesRest(kind, xs, other);
      IssueAccepted(kind, xs[0], other);
      SectionsValid(kind, xs[1..], other);
    }
  }

  ghost function TablesOut(kind: TableKind, xs: seq<Issue>, other: byte): (outs: seq<Output>)
    requires ValidIssues(kind, xs, other)
    ensures Checked(outs)
    decreases |xs|
  {
    if xs == [] then []
    else
      IssuesRest(kind, xs, other);
      var s := SectionFor(kind, xs[0], other);
      [Output.Table(ParseHeader(s[..3]), s)] + TablesOut(kind, xs[1..], other)
  }

  lemma DeliveryGood(s: seq<byte>)
    requires ValidSection(SectionSyntax, s)
    ensures |s| >= HEADER_SIZE && GoodEvent(Delivery(s))
  {
    hide ParseHeader;
  }

  lemma {:induction false} SeriesRelayed(pid: Pid, last: Option<byte>, kind: TableKind, xs: seq<Issue>, other: byte)
    requires ValidIssues(kind, xs, other) && (xs != [] ==> last != Some(xs[0].version))
    ensures AllValid(SectionSyntax, SectionsFor(kind, xs, other))
    ensures AllGood(Deliveries(SectionSyntax, SectionsFor(kind, xs, other)))
    ensures Relay(pid, last, Deliveries(SectionSyntax, SectionsFor(kind, xs, other))).1 == TablesOut(kind, xs, other)
    decreases |xs|
  {
    hide ValidIssue, SectionFor, ValidSection, Version, Sum32, CheckCrc, GoodEvent, ParseHeader;
    SectionsValid(kind, xs, other);
    if xs == [] {
      assert Deliveries(SectionSyntax, []) == [];
    } else {
      IssuesRest(kind, xs, other);
      var s, more := SectionFor(kind, xs[0], other), SectionsFor(kind, xs[1..], other);
      IssueAccepted(kind, xs[0], other);
      DeliveryGood(s);
      SeriesRelayed(pid, Some(xs[0].version), kind, xs[1..], other);
      DeliveriesCons(SectionSyntax, s, more);
      CheckedExactly(pid, ParseHeader(s[..HEADER_SIZE]), s);
      RelaySingle(pid, last, Delivery(s));
      RelayConcat(pid, last, [Delivery(s)], Deliveries(SectionSyntax, more));
    }
  }

  // ----- what the processor does with it -----

  lemma {:induction false} ConstructConcat<F, C>(maker: Maker<F, C>, c: C, a: seq<Request>, b: seq<Request>)
    ensures ConstructAll(maker, c, a + b).0 == ConstructAll(maker, ConstructAll(maker, c, a).0, b).0
    decreases |a|
  {
    if a == [] {
      assert a + b == b;
    } else {
      assert (a + b)[0] == a[0] && (a + b)[1..] == a[1..] + b;
      ConstructConcat(maker, maker.construct(c, a[0]).1, a[1..], b);
    }
  }

  lemma FrontIssues(kind: TableKind, xs: seq<Issue>, other: byte)
    requires ValidIssues(kind, xs, other) && xs != []
    ensures ValidIssues(kind, xs[..|xs| - 1], other) && ValidIssue(kind, xs[|xs| - 1], other)
  {
    hide ValidIssue;
    assert ValidIssue(kind, xs[|xs| - 1], other) by { assert xs[|xs| - 1] in xs; }
  }

  /** The context in which the last table of a series is handled. */
  ghost function ContextBefore<F, C>(maker: Maker<F, C>, c: C, kind: TableKind, xs: seq<Issue>, other: byte): C
    requires ValidIssues(kind, xs, other) && xs != []
  {
    FrontIssues(kind, xs, other);
    ConstructAll(maker, c, AllRequests(kind, xs[..|xs| - 1], other)).0
  }

  lemma ContextRest<F, C>(maker: Maker<F, C>, c: C, kind: TableKind, xs: seq<Issue>, other: byte)
    requires ValidIssues(kind, xs, other) && |xs| > 1 && ValidIssue(kind, xs[0], other) && ValidIssues(kind, xs[1..], other)
    ensures var d := ConstructAll(maker, c, RequestsOf(kind, xs[0].listing, other)).0;
            ContextBefore(maker, c, kind, xs, other) == ContextBefore(maker, d, kind, xs[1..], other)
  {
    hide ValidIssue, RequestsOf, ConstructAll;
    FrontIssues(kind, xs, other);
    var front := xs[..|xs| - 1];
    IssuesRest(kind, front, other);
    assert front[0] == xs[0] && front[1..] == xs[1..][..|xs| - 2];
    ListingIsValid(kind, xs[0], other);
    ConstructConcat(maker, c, RequestsOf(kind, xs[0].listing, other), AllRequests(kind, front[1..], other));
  }

  /** What should be at `q` after the series. */
  ghost predicate RightAt<F, C>(maker: Maker<F, C>, c: C, kind: TableKind, registered: set<Pid>, xs: seq<Issue>, other: byte,
                                m: map<Pid, F>, after: map<Pid, F>, q: Pid)
    requires ValidIssues(kind, xs, other) && xs != []
  {
    FrontIssues(kind, xs, other);
    var last := xs[|xs| - 1].listing;
    var made := ConstructAll(maker, ContextBefore(maker, c, kind, xs, other), RequestsOf(kind, last, other)).1;
    && (forall i: nat :: LastOn(PidsOf(last), q, i) ==> q in after && after[q] == made[i])
    && (q !in PidsOf(last) && (q in registered || NamedIn(xs, q)) ==> q !in after)
    && (q !in registered && !NamedIn(xs, q) ==> (q in after <==> q in m) && (q in m ==> after[q] == m[q]))
  }

  lemma OneIssue<F, C>(maker: Maker<F, C>, kind: TableKind, registered: set<Pid>, c: C, x: Issue, other: byte, m: map<Pid, F>)
    requires ValidIssue(kind, x, other)
    ensures var s := SectionFor(kind, x, other);
            var r := ProcessSection(maker, kind, registered, c, ParseHeader(s[..3]), s);
            var (made, pids, after) := (ConstructAll(maker, c, RequestsOf(kind, x.listing, other)), PidsOf(x.listing), ApplyAll(m, r.2));
            && r.1 == made.0
            && (forall q: Pid :: q in r.0 <==> q in pids)
            && (forall q: Pid, i: nat :: LastOn(pids, q, i) ==> q in after && after[q] == made.1[i])
            && (forall q: Pid :: q !in pids && q in registered ==> q !in after)
            && (forall q: Pid :: q !in pids && q !in registered ==> (q in after <==> q in m) && (q in m ==> after[q] == m[q]))
  {
    hide EncodeWire, ParseHeader, SectionOf, RequestsOf, PidsOf, ProcessSection, ApplyAll, ConstructAll, LastOn;
    TableAsks(maker, kind, registered, c, m, x.listing, x.id, x.version, other);
  }

  lemma HandleFirst<F, C>(maker: Maker<F, C>, kind: TableKind, registered: set<Pid>, c: C, header: SectionHeader, data: seq<byte>, outs: seq<Output>)
    requires |data| >= 12 && Checked(outs)
    ensures Checked([Output.Table(header, data)] + outs)
    ensures var first := ProcessSection(maker, kind, registered, c, header, data);
            var rest := HandleOutputs(maker, kind, first.0, first.1, outs);
            HandleOutputs(maker, kind, registered, c, [Output.Table(header, data)] + outs) == (rest.0, rest.1, first.2 + rest.2)
  {
    hide ProcessSection;
    assert ([Output.Table(header, data)] + outs)[1..] == outs;
  }

  lemma {:induction false} SeriesHandled<F, C>(maker: Maker<F, C>, kind: TableKind, registered: set<Pid>, c: C, xs: seq<Issue>,
                                               other: byte, m: map<Pid, F>)
    requires ValidIssues(kind, xs, other) && xs != []
    ensures var r := HandleOutputs(maker, kind, registered, c, TablesOut(kind, xs, other));
            && r.1 == ConstructAll(maker, c, AllRequests(kind, xs, other)).0
            && forall q: Pid :: RightAt(maker, c, kind, registered, xs, other, m, ApplyAll(m, r.2), q)
    decreases |xs|
  {
    hide ValidIssue, SectionFor, RequestsOf, ProcessSection, ApplyAll, PidsOf, ConstructAll, LastOn, HandleOutputs, ParseHeader;
    IssuesRest(kind, xs, other);
    var s, rest := SectionFor(kind, xs[0], other), xs[1..];
    var first := ProcessSection(maker, kind, registered, c, ParseHeader(s[..3]), s);
    ListingIsValid(kind, xs[0], other);
    OneIssue(maker, kind, registered, c, xs[0], other, m);
    HandleFirst(maker, kind, registered, c, ParseHeader(s[..3]), s, TablesOut(kind, rest, other));
    ConstructConcat(maker, c, RequestsOf(kind, xs[0].listing, other), AllRequests(kind, rest, other));
    var later := HandleOutputs(maker, kind, first.0, first.1, TablesOut(kind, rest, other));
    ApplyConcat(m, first.2, later.2);
    if rest == [] {
      NothingMore(maker, kind, first.0, first.1, ApplyAll(m, first.2));
      ContextOnly(maker, c, kind, xs, other);
      assert first.2 + [] == first.2;
      forall q: Pid
        ensures RightAt(maker, c, kind, registered, xs, other, m, ApplyAll(m, first.2), q)
      {
        assert NamedIn(xs, q) <==> q in PidsOf(xs[0].listing);
      }
    } else {
      SeriesHandled(maker, kind, first.0, first.1, rest, other, ApplyAll(m, first.2));
      ContextRest(maker, c, kind, xs, other);
      forall q: Pid
        ensures RightAt(maker, c, kind, registered, xs, other, m, ApplyAll(m, first.2 + later.2), q)
      {
        assert RightAt(maker, first.1, kind, first.0, rest, other, ApplyAll(m, first.2), ApplyAll(m, first.2 + later.2), q);
        NamedCons(xs, q);
      }
    }
  }

  lemma NamedCons(xs: seq<Issue>, q: Pid)
    requires xs != []
    ensures NamedIn(xs, q) <==> q in PidsOf(xs[0].listing) || NamedIn(xs[1..], q)
  {
    hide PidsOf;
    assert forall x :: x in xs <==> x == xs[0] || x in xs[1..];
  }

  lemma NothingMore<F, C>(maker: Maker<F, C>, kind: TableKind, registered: set<Pid>, c: C, m: map<Pid, F>)
    ensures HandleOutputs(maker, kind, registered, c, []) == (registered, c, []) && ApplyAll<F>(m, []) == m
    ensures ConstructAll(maker, c, []) == (c, [])
  {
  }

  lemma ContextOnly<F, C>(maker: Maker<F, C>, c: C, kind: TableKind, xs: seq<Issue>, other: byte)
    requires ValidIssues(kind, xs, other) && |xs| == 1
    ensures ContextBefore(maker, c, kind, xs, other) == c
  {
    hide RequestsOf;
    assert xs[..0] == [];
  }

  // ----- the stream -----

  lemma {:induction false} SeriesSpares(kind: TableKind, xs: seq<Issue>, other: byte, pid: Pid)
    requires ValidIssues(kind, xs, other) && !NamedIn(xs, pid)
    ensures Spares(kind, TablesOut(kind, xs, other), pid)
    decreases |xs|
  {
    hide ValidIssue, PidsOf, Examine, ItemPids, ParseHeader, SectionFor;
    if xs != [] {
      IssuesRest(kind, xs, other);
      NamedCons(xs, pid);
      SeriesSpares(kind, xs[1..], other, pid);
      IssueSpares(kind, xs[0], other, pid);
    }
  }

  lemma IssueSpares(kind: TableKind, x: Issue, other: byte, pid: Pid)
    requires ValidIssue(kind, x, other) && pid !in PidsOf(x.listing)
    ensures var s := SectionFor(kind, x, other);
            var r := Examine(kind, ParseHeader(s[..3]), s);
            r.Ok? && pid !in ItemPids(r.value)
  {
    hide EncodeWire, ParseHeader, Examine, SectionOf, RequestsOf, PidsOf;
    Examined(kind, x.listing, x.id, x.version, other);
  }

  /** From entries to filters, for program associations on PID 0 and for a program's maps on its
      PID: encode any series of tables, none naming the PID it is sent on and none repeating the
      version before it, send it as a byte stream, and push that where the filter of that PID
      is new. The application is asked, in order, for exactly what the entries say; each PID of
      the last table has the filter constructed for its last entry there, in that order and
      context; PIDs that only earlier tables named have none; and all others are untouched. */
  lemma SeriesRules<U, C>(a: App<U, C>, w: World<EndToEnd.Filter<U>, C>, pid: Pid, xs: seq<Issue>, other: byte)
    requires pid in w.filters && IsTable(w.filters[pid]) && StateOf(w.filters[pid]) == NewFilter
    requires xs != [] && ValidIssues(KindOf(w.filters[pid]), xs, other) && !NamedIn(xs, pid)
    ensures var kind := KindOf(w.filters[pid]);
            var w' := PushAll(EnvOf(a), w, Chunks(StreamOf(SectionsFor(kind, xs, other), pid)));
            && w'.ctx == ConstructAll(a.maker, w.ctx, AllRequests(kind, xs, other)).0
            && pid in w'.filters && IsTable(w'.filters[pid]) && KindOf(w'.filters[pid]) == kind
            && forall q: Pid :: q != pid ==> RightAt(a.maker, w.ctx, kind, {}, xs, other, w.filters, w'.filters, q)
  {
    hide PushAll, Chunks, ValidIssues, SectionsFor, Packetise, PlanFor, PacketsFor, CarryAll, AllFor, Concat, EnvOf, Reaching, HandleOutputs,
      TablesOut, LatestFilters, LatestPids, ApplyAll, Spares, NamedIn, Relay, Expected, Deliveries, AllRequests, ConstructAll, LegalPlan,
      RightAt, AllValid, Finally, Packetiser.Completed, AllGood;
    var kind := KindOf(w.filters[pid]);
    var ss := SectionsFor(kind, xs, other);
    var x := Sender([], 0, ss);
    PlanSendsAll(x);
    var us := Packetise(x, PlanFor(x));
    var ps := PacketsFor(us, pid);
    PacketsCarry(us, pid);
    ChunksOfPackets(ps);
    SectionsValid(kind, xs, other);
    SectionsReaching(PidFor(kind), ss, PlanFor(x), ps);
    var done := Packetiser.Completed(x, PlanFor(x));
    assert done + [] == done;
    SeriesRelayed(PidFor(kind), None, kind, xs, other);
    PipelineExact(PidFor(kind), Deliveries(SectionSyntax, ss));
    SeriesSpares(kind, xs, other, pid);
    TableAnyPackets(a, w, ps, pid);
    SeriesHandled(a.maker, kind, {}, w.ctx, xs, other, w.filters);
    var w' := PushAll(EnvOf(a), w, ps);
    var after := ApplyAll(w.filters, HandleOutputs(a.maker, kind, {}, w.ctx, TablesOut(kind, xs, other)).2);
    forall q: Pid | q != pid
      ensures RightAt(a.maker, w.ctx, kind, {}, xs, other, w.filters, w'.filters, q)
    {
      SameElsewhere(w'.filters, after, pid, q);
      RightThere(a.maker, w.ctx, kind, {}, xs, other, w.filters, after, w'.filters, q);
    }
  }

  lemma SameElsewhere<F>(a: map<Pid, F>, b: map<Pid, F>, pid: Pid, q: Pid)
    requires a - {pid} == b - {pid} && q != pid
    ensures (q in a <==> q in b) && (q in a ==> a[q] == b[q])
  {
    assert q in a - {pid} <==> q in a;
    assert q in b - {pid} <==> q in b;
    assert q in a ==> (a - {pid})[q] == a[q];
    assert q in b ==> (b - {pid})[q] == b[q];
  }

  lemma RightThere<F, C>(maker: Maker<F, C>, c: C, kind: TableKind, registered: set<Pid>, xs: seq<Issue>, other: byte,
                         m: map<Pid, F>, a: map<Pid, F>, b: map<Pid, F>, q: Pid)
    requires ValidIssues(kind, xs, other) && xs != [] && RightAt(maker, c, kind, registered, xs, other, m, a, q)
    requires (q in a <==> q in b) && (q in a ==> a[q] == b[q])
    ensures RightAt(maker, c, kind, registered, xs, other, m, b, q)
  {
    hide ValidIssues, ContextBefore, RequestsOf, ConstructAll, NamedIn, PidsOf, LastOn;
  }
}
