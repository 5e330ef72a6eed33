/** Which filters are in place after any sequence of tables through one PAT or PMT processor. */
module Reconciliation {
  import opened Bytes
  import opened Sections
  import opened Filters
  import opened Demultiplexer
  import opened TableProcessors

  /** The filters of a table by PID: for a PID named more than once, the last one built. */
  function FiltersOf<F>(built: Built<F>): (m: map<Pid, F>) {
    if built == [] then map[] else FiltersOf(built[..|built| - 1])[built[|built| - 1].0 := built[|built| - 1].1]
  }

  /** No later entry has the PID of entry `i`. */
  ghost predicate LastFor<F>(built: Built<F>, i: nat)
    requires i < |built|
  {
    forall j :: i < j < |built| ==> built[j].0 != built[i].0
  }

  lemma {:induction false} FiltersOfKeys<F>(built: Built<F>)
    ensures FiltersOf(built).Keys == Pids(built)
  {
    hide Pids;
    if built == [] {
      NoneBuilt<F>();
    } else {
      var front := built[..|built| - 1];
      var (pid, f) := built[|built| - 1];
      FiltersOfKeys(front);
      assert built == front + [(pid, f)];
      PidsPush(front, pid, f);
    }
  }

  lemma {:induction false} FiltersOfEntry<F>(built: Built<F>, i: nat)
    requires i < |built| && LastFor(built, i)
    ensures built[i].0 in FiltersOf(built) && FiltersOf(built)[built[i].0] == built[i].1
    decreases |built|
  {
    if i < |built| - 1 {
      var front := built[..|built| - 1];
      assert front[i] == built[i] && built[|built| - 1].0 != built[i].0;
      FiltersOfEntry(front, i);
    }
  }

  lemma FiltersOfIsLast<F>(built: Built<F>)
    ensures FiltersOf(built).Keys == Pids(built)
    ensures forall i: nat :: i < |built| && LastFor(built, i)
              ==> built[i].0 in FiltersOf(built) && FiltersOf(built)[built[i].0] == built[i].1
  {
    hide FiltersOf, Pids, LastFor;
    FiltersOfKeys(built);
    forall i: nat | i < |built| && LastFor(built, i)
      ensures built[i].0 in FiltersOf(built) && FiltersOf(built)[built[i].0] == built[i].1
    {
      FiltersOfEntry(built, i);
    }
  }

  lemma {:induction false} InsertionsApplied<F>(m: map<Pid, F>, built: Built<F>)
    ensures ApplyAll(m, Insertions(built)) == m + FiltersOf(built)
  {
    if built != [] {
      var front := built[..|built| - 1];
      var (pid, f) := built[|built| - 1];
      assert built == front + [(pid, f)];
      InsertionsApplied(m, front);
      InsertionsConcat(front, [(pid, f)]);
      assert Insertions([(pid, f)]) == [Insert(pid, f)];
      ApplyConcat(m, Insertions(front), [Insert(pid, f)]);
      var n := ApplyAll(m, Insertions(front));
      assert ApplyAll(n, [Insert(pid, f)]) == n[pid := f];
    }
  }

  lemma {:induction false} RemovalsApplied<F>(m: map<Pid, F>, ps: seq<Pid>)
    ensures ApplyAll(m, Removals<F>(ps)) == m - (set p | p in ps)
    decreases |ps|
  {
    if ps != [] {
      RemovalsApplied(m - {ps[0]}, ps[1..]);
      assert Removals<F>(ps)[1..] == Removals<F>(ps[1..]);
      assert ps == [ps[0]] + ps[1..];
    }
  }

  lemma {:induction false} OutdatedHas(registered: set<Pid>, seen: set<Pid>, lo: nat, p: Pid)
    requires lo <= PID_COUNT
    ensures p in Outdated(registered, seen, lo) <==> p >= lo && p in registered && p !in seen
    decreases PID_COUNT - lo
  {
    if lo < PID_COUNT {
      OutdatedHas(registered, seen, lo + 1, p);
      var head := if lo in registered && lo !in seen then [lo] else [];
      assert p in head + Outdated(registered, seen, lo + 1) <==> p in head || p in Outdated(registered, seen, lo + 1);
    }
  }

  ghost predicate Ascending(ps: seq<Pid>) {
    forall i, j :: 0 <= i < j < |ps| ==> ps[i] < ps[j]
  }

  lemma AscendingCons(p: Pid, ps: seq<Pid>)
    requires Ascending(ps) && forall q :: q in ps ==> p < q
    ensures Ascending([p] + ps)
  {
    var all := [p] + ps;
    forall i, j | 0 <= i < j < |all|
      ensures all[i] < all[j]
    {
      assert all[j] == ps[j - 1] && ps[j - 1] in ps;
      if i > 0 {
        assert all[i] == ps[i - 1] && ps[i - 1] < ps[j - 1];
      }
    }
  }

  /** They come in ascending order, each once. */
  lemma {:induction false} OutdatedAscends(registered: set<Pid>, seen: set<Pid>, lo: nat)
    requires lo <= PID_COUNT
    ensures Ascending(Outdated(registered, seen, lo))
    decreases PID_COUNT - lo
  {
    if lo < PID_COUNT {
      OutdatedAscends(registered, seen, lo + 1);
      OutdatedFrom(registered, seen, lo + 1);
      var rest := Outdated(registered, seen, lo + 1);
      AscendingCons(lo, rest);
      assert [] + rest == rest;
    }
  }

  lemma OutdatedFrom(registered: set<Pid>, seen: set<Pid>, lo: nat)
    requires lo <= PID_COUNT
    ensures forall p :: p in Outdated(registered, seen, lo) ==> p >= lo
  {
    OutdatedIs(registered, seen, lo);
  }

  lemma OutdatedIs(registered: set<Pid>, seen: set<Pid>, lo: nat)
    requires lo <= PID_COUNT
    ensures forall p: Pid :: p in Outdated(registered, seen, lo) <==> p >= lo && p in registered && p !in seen
  {
    forall p: Pid ensures p in Outdated(registered, seen, lo) <==> p >= lo && p in registered && p !in seen {
      OutdatedHas(registered, seen, lo, p);
    }
  }

  /** The changes of one accepted table, applied: its PIDs have the filters built for them,
      PIDs that only the previous table named have none, and the rest are untouched. */
  lemma TableApplied<F, C>(maker: Maker<F, C>, registered: set<Pid>, c: C, items: seq<Item>, m: map<Pid, F>)
    ensures var built := Build(maker, c, items).1;
            ApplyAll(m, NewTable(maker, registered, c, items).2) == (m + FiltersOf(built)) - (registered - Pids(built))
  {
    hide Insertions, Removals, Outdated, FiltersOf, ApplyAll;
    var built := Build(maker, c, items).1;
    var outdated := Outdated(registered, Pids(built), 0);
    ApplyConcat(m, Insertions(built), Removals<F>(outdated));
    InsertionsApplied(m, built);
    RemovalsApplied(m + FiltersOf(built), outdated);
    OutdatedIs(registered, Pids(built), 0);
    assert (set p | p in outdated) == registered - Pids(built);
  }

  // ----- sequences of tables -----

  /** A section that passed the CRC check. */
  datatype Arrival = Arrival(header: SectionHeader, data: seq<byte>)

  ghost predicate LongEnough(arrivals: seq<Arrival>) {
    forall a :: a in arrivals ==> |a.data| >= 12
  }

  /** One processor, its registered PIDs, and the filters it works on. */
  datatype Plant<+F, +C> = Plant(registered: set<Pid>, filters: map<Pid, F>, ctx: C)

  function Arrive<F, C>(maker: Maker<F, C>, kind: TableKind, w: Plant<F, C>, a: Arrival): Plant<F, C>
    requires |a.data| >= 12
  {
    var (registered, c, changes) := ProcessSection(maker, kind, w.registered, w.ctx, a.header, a.data);
    Plant(registered, ApplyAll(w.filters, changes), c)
  }

  function ArriveAll<F, C>(maker: Maker<F, C>, kind: TableKind, w: Plant<F, C>, arrivals: seq<Arrival>): Plant<F, C>
    requires LongEnough(arrivals)
    decreases |arrivals|
  {
    if arrivals == [] then w
    else
      assert arrivals[0] in arrivals;
      ArriveAll(maker, kind, Arrive(maker, kind, w, arrivals[0]), arrivals[1..])
  }

  /** The filters of the latest accepted table and every PID named so far, found without
      looking at any filter map: `latest` and `named` are those before these arrivals. */
  function Latest<F, C>(maker: Maker<F, C>, kind: TableKind, c: C, arrivals: seq<Arrival>,
                        latest: map<Pid, F>, named: set<Pid>): (map<Pid, F>, set<Pid>)
    requires LongEnough(arrivals)
    decreases |arrivals|
  {
    if arrivals == [] then (latest, named)
    else
      assert arrivals[0] in arrivals;
      match Examine(kind, arrivals[0].header, arrivals[0].data)
      case Err(e) => Latest(maker, kind, maker.report(c, e), arrivals[1..], latest, named)
      case Ok(items) =>
        var (c', built) := Build(maker, c, items);
        Latest(maker, kind, c', arrivals[1..], FiltersOf(built), named + Pids(built))
  }

  /** Among the PIDs ever named, exactly the latest table's have a filter, the one it built;
      all other PIDs are as they were in `m0`. */
  ghost predicate Reconciled<F>(m0: map<Pid, F>, m: map<Pid, F>, registered: set<Pid>, latest: map<Pid, F>, named: set<Pid>) {
    && registered == latest.Keys
    && latest.Keys <= named
    && (forall p: Pid :: p in named ==> (p in m <==> p in latest))
    && (forall p: Pid :: p in latest ==> p in m && m[p] == latest[p])
    && (forall p: Pid :: p !in named ==> (p in m <==> p in m0) && (p in m0 ==> m[p] == m0[p]))
  }

  lemma ReconcileOne<F>(m0: map<Pid, F>, m: map<Pid, F>, registered: set<Pid>, latest: map<Pid, F>, named: set<Pid>,
                        now: map<Pid, F>)
    requires Reconciled(m0, m, registered, latest, named)
    ensures Reconciled(m0, (m + now) - (registered - now.Keys), now.Keys, now, named + now.Keys)
  {
  }

  lemma {:induction false} ReconcileFrom<F, C>(maker: Maker<F, C>, kind: TableKind, w: Plant<F, C>, arrivals: seq<Arrival>,
                                               m0: map<Pid, F>, latest: map<Pid, F>, named: set<Pid>)
    requires LongEnough(arrivals)
    requires Reconciled(m0, w.filters, w.registered, latest, named)
    ensures var w' := ArriveAll(maker, kind, w, arrivals);
            var (latest', named') := Latest(maker, kind, w.ctx, arrivals, latest, named);
            Reconciled(m0, w'.filters, w'.registered, latest', named')
    decreases |arrivals|
  {
    hide Reconciled, Examine, FiltersOf;
    if arrivals != [] {
      var a := arrivals[0];
      assert a in arrivals;
      match Examine(kind, a.header, a.data) {
        case Err(e) =>
          ReconcileFrom(maker, kind, Arrive(maker, kind, w, a), arrivals[1..], m0, latest, named);
        case Ok(items) =>
          var built := Build(maker, w.ctx, items).1;
          TableApplied(maker, w.registered, w.ctx, items, w.filters);
          FiltersOfIsLast(built);
          ReconcileOne(m0, w.filters, w.registered, latest, named, FiltersOf(built));
          ReconcileFrom(maker, kind, Arrive(maker, kind, w, a), arrivals[1..], m0, FiltersOf(built), named + Pids(built));
      }
    }
  }

  lemma NoneNamed<F>(filters: map<Pid, F>)
    ensures Reconciled(filters, filters, {}, map[], {})
  {
  }

  /** Section `i` of the sequence, being rejected, changed no filter and no registration, and
      was reported. */
  ghost predicate ChangedNothing<F, C>(maker: Maker<F, C>, kind: TableKind, w: Plant<F, C>, arrivals: seq<Arrival>, i: nat)
    requires LongEnough(arrivals) && i < |arrivals| && Examine(kind, arrivals[i].header, arrivals[i].data).Err?
  {
    var before := ArriveAll(maker, kind, w, arrivals[..i]);
    ArriveAll(maker, kind, w, arrivals[..i + 1])
    == before.(ctx := maker.report(before.ctx, Examine(kind, arrivals[i].header, arrivals[i].data).error))
  }

  /** Over any sequence of sections through a new processor, with its changes applied: among
      all the PIDs its tables ever named, those with a filter are exactly the latest accepted
      table's, with the filter built for their last entry; other PIDs keep what they had; and
      no rejected section changed anything. */
  lemma TablesReconciled<F, C>(maker: Maker<F, C>, kind: TableKind, filters: map<Pid, F>, c: C, arrivals: seq<Arrival>)
    requires LongEnough(arrivals)
    ensures var w := ArriveAll(maker, kind, Plant({}, filters, c), arrivals);
            var (latest, named) := Latest(maker, kind, c, arrivals, map[], {});
            Reconciled(filters, w.filters, w.registered, latest, named)
    ensures forall i: nat :: i < |arrivals| && Examine(kind, arrivals[i].header, arrivals[i].data).Err? ==>
              ChangedNothing(maker, kind, Plant({}, filters, c), arrivals, i)
  {
    hide Examine, Arrive, ArriveAll, Latest, Reconciled;
    NoneNamed(filters);
    ReconcileFrom(maker, kind, Plant({}, filters, c), arrivals, filters, map[], {});
    forall i: nat | i < |arrivals| && Examine(kind, arrivals[i].header, arrivals[i].data).Err?
      ensures ChangedNothing(maker, kind, Plant({}, filters, c), arrivals, i)
    {
      assert arrivals[..i + 1] == arrivals[..i] + [arrivals[i]];
      ArriveSnoc(maker, kind, Plant({}, filters, c), arrivals[..i], arrivals[i]);
      RejectedChangesNothing(maker, kind, ArriveAll(maker, kind, Plant({}, filters, c), arrivals[..i]), arrivals[i]);
    }
  }

  lemma {:induction false} ArriveSnoc<F, C>(maker: Maker<F, C>, kind: TableKind, w: Plant<F, C>, arrivals: seq<Arrival>, a: Arrival)
    requires LongEnough(arrivals) && |a.data| >= 12
    ensures LongEnough(arrivals + [a])
    ensures ArriveAll(maker, kind, w, arrivals + [a]) == Arrive(maker, kind, ArriveAll(maker, kind, w, arrivals), a)
    decreases |arrivals|
  {
    hide Arrive;
    if arrivals == [] {
      assert ([] + [a])[0] == a && ([] + [a])[1..] == [];
    } else {
      assert arrivals[0] in arrivals;
      assert (arrivals + [a])[0] == arrivals[0] && (arrivals + [a])[1..] == arrivals[1..] + [a];
      ArriveSnoc(maker, kind, Arrive(maker, kind, w, arrivals[0]), arrivals[1..], a);
    }
  }

  /** A rejected section changes no filter and no registration. */
  lemma RejectedChangesNothing<F, C>(maker: Maker<F, C>, kind: TableKind, w: Plant<F, C>, a: Arrival)
    requires |a.data| >= 12 && Examine(kind, a.header, a.data).Err?
    ensures Arrive(maker, kind, w, a) == w.(ctx := maker.report(w.ctx, Examine(kind, a.header, a.data).error))
  {
    hide Examine;
  }
}
