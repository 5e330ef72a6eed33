/** The demultiplexer's packet loop (src/demultiplex.rs `Demultiplex`), for any filters and any
    context: both are given by the functions of an `Env`. */
module Demultiplexer {
  import opened Bytes
  import opened Packets
  import opened Sections
  import opened Tables
  import opened Filters

  /** What a context is asked to construct a filter for. */
  datatype Request =
    | ByPid(pid: Pid)
    | ByStream(programPid: Pid, pmt: PmtSection, stream: StreamInfo)
    | Pmt(pid: Pid, programNumber: nat)
    | Nit(pid: Pid)

  datatype DemuxError =
    | TransportErrorIndicated(pid: Pid)
    | ScrambledPacket(pid: Pid)
    | Framing(pid: Pid, error: FramerError)
    | SectionTooSmallForCrc(pid: Pid, tableId: byte, actual: nat)
    | CrcCheckFailed(pid: Pid, tableId: byte)
    | InvalidTableId(pid: Pid, expected: byte, found: byte)
    | SectionTooLarge(pid: Pid, tableId: byte, length: nat, limit: nat)
    | PatEntryParseError(patError: PatError)
    | PmtParseError(pid: Pid, pmtError: PmtError)

  /** How an application's context constructs filters and takes errors. */
  datatype Maker<!F, !C> = Maker(construct: (C, Request) -> (F, C), report: (C, DemuxError) -> C)

  /** A context, and how its filters consume packets and queue changes. */
  datatype Env<!F, !C> = Env(maker: Maker<F, C>, consume: (F, C, Packet) -> (F, C, seq<Change<F>>))

  datatype World<+F, +C> = World(filters: map<Pid, F>, ctx: C)

  // ----- the simple form: one packet at a time -----

  /** A filter for the packet's PID: the one in place, or one constructed on demand. */
  function Provide<F, C>(env: Env<F, C>, w: World<F, C>, pid: Pid): (w': World<F, C>)
    ensures pid in w'.filters
  {
    if pid in w.filters then w
    else
      var (f, c) := env.maker.construct(w.ctx, ByPid(pid));
      World(w.filters[pid := f], c)
  }

  /** One packet: look up or construct its filter, then report it, or let the filter consume it
      and apply the changes it queued. */
  function StepPacket<F, C>(env: Env<F, C>, w: World<F, C>, p: Packet): World<F, C> {
    var pid := PidOf(p);
    var w := Provide(env, w, pid);
    if TransportError(p) then w.(ctx := env.maker.report(w.ctx, TransportErrorIndicated(pid)))
    else if Scrambled(p) then w.(ctx := env.maker.report(w.ctx, ScrambledPacket(pid)))
    else
      var (f, c, changes) := env.consume(w.filters[pid], w.ctx, p);
      World(ApplyAll(w.filters[pid := f], changes), c)
  }

  function PushAll<F, C>(env: Env<F, C>, w: World<F, C>, ps: seq<Packet>): World<F, C>
    decreases |ps|
  {
    if ps == [] then w else PushAll(env, StepPacket(env, w, ps[0]), ps[1..])
  }

  /** The packets of a buffer: whole 188-byte chunks, up to the first without a sync byte. */
  function Chunks(buf: seq<byte>): seq<Packet> {
    if |buf| < SIZE || buf[0] != SYNC_BYTE then [] else [buf[..SIZE]] + Chunks(buf[SIZE..])
  }

  lemma {:induction false} PushConcat<F, C>(env: Env<F, C>, w: World<F, C>, a: seq<Packet>, b: seq<Packet>)
    ensures PushAll(env, w, a + b) == PushAll(env, PushAll(env, w, a), b)
    decreases |a|
  {
    hide StepPacket;
    if a == [] {
      assert a + b == b;
    } else {
      assert (a + b)[0] == a[0] && (a + b)[1..] == a[1..] + b;
      PushConcat(env, StepPacket(env, w, a[0]), a[1..], b);
    }
  }

  /** A buffer that is nothing but packets. */
  ghost predicate Whole(buf: seq<byte>) {
    |buf| == SIZE * |Chunks(buf)|
  }

  lemma {:induction false} ChunksConcat(a: seq<byte>, b: seq<byte>)
    requires Whole(a)
    ensures Chunks(a + b) == Chunks(a) + Chunks(b)
  {
    if a == [] {
      assert a + b == b;
    } else {
      var rest := a[SIZE..];
      assert Chunks(a) == [a[..SIZE]] + Chunks(rest);
      assert (a + b)[..SIZE] == a[..SIZE] && (a + b)[SIZE..] == rest + b;
      ChunksConcat(rest, b);
    }
  }

  /** The packets of a buffer are all those before the first chunk that is cut short or does not
      begin with 0x47; nothing after that is looked at. */
  lemma {:induction false} ChunksExactly(ps: seq<Packet>, rest: seq<byte>)
    requires |rest| < 188 || rest[0] != 0x47
    ensures Chunks(Concat(ps) + rest) == ps
  {
    if ps == [] {
      assert Concat(ps) + rest == rest;
    } else {
      var buf := Concat(ps) + rest;
      assert buf == ps[0] + (Concat(ps[1..]) + rest);
      assert buf[..SIZE] == ps[0] && buf[SIZE..] == Concat(ps[1..]) + rest;
      ChunksExactly(ps[1..], rest);
      assert [ps[0]] + ps[1..] == ps;
    }
  }

  /** Change `i` is the last to name `pid`. */
  ghost predicate LastNaming<F>(cs: seq<Change<F>>, pid: Pid, i: nat) {
    i < |cs| && cs[i].pid == pid && forall j :: i < j < |cs| ==> cs[j].pid != pid
  }

  ghost predicate Named<F>(cs: seq<Change<F>>, pid: Pid) {
    exists c :: c in cs && c.pid == pid
  }

  lemma {:induction false} AppliedAt<F>(m: map<Pid, F>, cs: seq<Change<F>>, pid: Pid)
    ensures !Named(cs, pid) ==> (pid in ApplyAll(m, cs) <==> pid in m) && (pid in m ==> ApplyAll(m, cs)[pid] == m[pid])
    ensures forall i: nat :: LastNaming(cs, pid, i) ==>
              if cs[i].Insert? then pid in ApplyAll(m, cs) && ApplyAll(m, cs)[pid] == cs[i].filter else pid !in ApplyAll(m, cs)
    decreases |cs|
  {
    if cs != [] {
      var rest := cs[1..];
      AppliedAt(ApplyChange(m, cs[0]), rest, pid);
      assert forall c :: c in cs <==> c == cs[0] || c in rest;
      forall i: nat | LastNaming(cs, pid, i)
        ensures if cs[i].Insert? then pid in ApplyAll(m, cs) && ApplyAll(m, cs)[pid] == cs[i].filter else pid !in ApplyAll(m, cs)
      {
        if i > 0 {
          assert forall j :: i - 1 < j < |rest| ==> rest[j] == cs[j + 1];
          assert LastNaming(rest, pid, i - 1);
        } else {
          assert forall j :: 0 <= j < |rest| ==> rest[j] == cs[j + 1];
          assert !Named(rest, pid);
        }
      }
    }
  }

  /** One packet, whatever the filters and the context. A filter is constructed exactly if the
      PID has none, on request for that PID. A packet with the error bit, or scrambled, is
      reported and nothing else; any other is consumed, by that filter alone, and each PID then
      has the filter of the last queued change that names it, or none if that is a removal; if
      none names it, it has what it had. */
  lemma OnePacket<F, C>(env: Env<F, C>, w: World<F, C>, p: Packet)
    ensures var w', pid := StepPacket(env, w, p), PidOf(p);
            var (f, c) := if pid in w.filters then (w.filters[pid], w.ctx) else env.maker.construct(w.ctx, ByPid(pid));
            && (p[1] & 0x80 != 0 ==> w'.filters == w.filters[pid := f] && w'.ctx == env.maker.report(c, TransportErrorIndicated(pid)))
            && (p[1] & 0x80 == 0 && p[3] & 0xc0 != 0 ==>
                  w'.filters == w.filters[pid := f] && w'.ctx == env.maker.report(c, ScrambledPacket(pid)))
            && (p[1] & 0x80 == 0 && p[3] & 0xc0 == 0 ==>
                  var (g, d, cs) := env.consume(f, c, p);
                  && w'.ctx == d
                  && (forall q: Pid, i: nat :: LastNaming(cs, q, i) ==>
                        if cs[i].Insert? then q in w'.filters && w'.filters[q] == cs[i].filter else q !in w'.filters)
                  && (forall q: Pid :: !Named(cs, q) ==>
                        && (q in w'.filters <==> q == pid || q in w.filters)
                        && (q in w'.filters ==> w'.filters[q] == if q == pid then g else w.filters[q])))
  {
    hide PidOf, ApplyAll, Named;
    var pid := PidOf(p);
    var (f, c) := if pid in w.filters then (w.filters[pid], w.ctx) else env.maker.construct(w.ctx, ByPid(pid));
    if p[1] & 0x80 == 0 && p[3] & 0xc0 == 0 {
      var (g, d, cs) := env.consume(f, c, p);
      assert Provide(env, w, pid).filters[pid] == f;
      var m := w.filters[pid := g];
      assert Provide(env, w, pid).filters[pid := g] == m;
      forall q: Pid
        ensures !Named(cs, q) ==> (q in ApplyAll(m, cs) <==> q in m) && (q in m ==> ApplyAll(m, cs)[q] == m[q])
        ensures forall i: nat :: LastNaming(cs, q, i) ==>
                  if cs[i].Insert? then q in ApplyAll(m, cs) && ApplyAll(m, cs)[q] == cs[i].filter else q !in ApplyAll(m, cs)
      {
        AppliedAt(m, cs, q);
      }
    }
  }

  /** Buffers may be cut between packets: pushing them joined is pushing one after the other. */
  lemma PushSplit<F, C>(env: Env<F, C>, w: World<F, C>, a: seq<byte>, b: seq<byte>)
    requires Whole(a)
    ensures PushAll(env, w, Chunks(a + b)) == PushAll(env, PushAll(env, w, Chunks(a)), Chunks(b))
  {
    ChunksConcat(a, b);
    PushConcat(env, w, Chunks(a), Chunks(b));
  }

  // ----- the loop of the source, which keeps hold of the current filter -----

  /** The next packet of a buffer, if there is one. */
  function NextPacket(rest: seq<byte>): (p: Option<Packet>)
    ensures p.None? ==> Chunks(rest) == []
    ensures p.Some? ==> |rest| >= SIZE && Chunks(rest) == [p.value] + Chunks(rest[SIZE..])
  {
    if |rest| < SIZE || rest[0] != SYNC_BYTE then None else Some(rest[..SIZE])
  }

  class Demultiplex<F, C> {
    const env: Env<F, C>
    const table: FilterTable<F>
    var ctx: C

    ghost predicate Valid()
      reads this, table
    {
      table.Valid()
    }

    ghost function View(): World<F, C>
      requires Valid()
      reads this, table, table.Cells()
    {
      World(table.View(), ctx)
    }

    /** A new demultiplexer has a filter for the PAT's PID. */
    constructor (env: Env<F, C>, ctx: C)
      ensures Valid() && this.env == env && fresh(table) && fresh(table.Cells())
      ensures View() == Provide(env, World(map[], ctx), 0)
    {
      var (f, c) := env.maker.construct(ctx, ByPid(0));
      var t := new FilterTable<F>();
      t.Put(0, f);
      this.env := env;
      this.table := t;
      this.ctx := c;
    }

    /** A filter for `pid`, constructed if there is none; finding it cannot fail. */
    method Obtain(pid: Pid) returns (cell: Cell<F>)
      requires Valid()
      modifies this`ctx, table
      ensures Valid() && View() == Provide(env, old(View()), pid)
      ensures pid in View().filters && pid < |table.slots| && table.slots[pid] == cell
      ensures fresh(table.Cells() - old(table.Cells()))
    {
      var found := table.Contains(pid);
      if !found {
        var (f, c) := env.maker.construct(ctx, ByPid(pid));
        ctx := c;
        table.Put(pid, f);
      }
      cell := table.Get(pid);
    }

    /** One packet given to the filter in hand; `changed` if the table was altered. */
    method Process(pk: Packet, cell: Cell<F>) returns (changed: bool)
      requires Valid()
      requires PidOf(pk) < |table.slots| && table.slots[PidOf(pk)] == cell
      modifies this`ctx, table, cell
      ensures Valid() && View() == StepPacket(env, old(View()), pk)
      ensures !changed ==> table.slots == old(table.slots) && PidOf(pk) in View().filters
      ensures fresh(table.Cells() - old(table.Cells()))
    {
      var pid := PidOf(pk);
      changed := false;
      assert pid in View().filters;
      if TransportError(pk) {
        ctx := env.maker.report(ctx, TransportErrorIndicated(pid));
      } else if Scrambled(pk) {
        ctx := env.maker.report(ctx, ScrambledPacket(pid));
      } else {
        var (f, c, changes) := env.consume(cell.state, ctx, pk);
        cell.state := f;
        ctx := c;
        assert table.View() == old(table.View())[pid := f];
        if changes != [] {
          table.ApplyQueue(changes);
          changed := true;
        }
      }
    }

    /** `push`: the inner loop goes on with the filter in hand while the PID stays the same
        and no change is queued; the result is that of one simple step for every packet. */
    method Push(buf: seq<byte>)
      requires Valid()
      modifies this`ctx, table, table.Cells()
      ensures Valid() && View() == PushAll(env, old(View()), Chunks(buf))
      ensures fresh(table.Cells() - old(table.Cells()))
    {
      hide StepPacket, Chunks;
      var next := NextPacket(buf);
      if next.None? {
        return;
      }
      var pk := next.value;
      var rest := buf[SIZE..];
      while true
        invariant Valid()
        invariant PushAll(env, View(), [pk] + Chunks(rest)) == PushAll(env, old(View()), Chunks(buf))
        invariant fresh(table.Cells() - old(table.Cells()))
        decreases |rest|
      {
        ghost var w := View();
        var pid := PidOf(pk);
        var cell := Obtain(pid);
        ProvideOnce(env, w, pk, Chunks(rest));
        while true
          invariant Valid()
          invariant PidOf(pk) == pid
          invariant pid < |table.slots| && table.slots[pid] == cell
          invariant PushAll(env, View(), [pk] + Chunks(rest)) == PushAll(env, old(View()), Chunks(buf))
          invariant fresh(table.Cells() - old(table.Cells()))
          decreases |rest|
        {
          ghost var w := View();
          var changed := Process(pk, cell);
          assert ([pk] + Chunks(rest))[1..] == Chunks(rest);
          next := NextPacket(rest);
          if next.None? {
            return;
          }
          pk := next.value;
          rest := rest[SIZE..];
          if changed || PidOf(pk) != pid {
            break;
          }
        }
      }
    }
  }

  /** Providing a filter beforehand does not change what a packet does. */
  lemma ProvideOnce<F, C>(env: Env<F, C>, w: World<F, C>, pk: Packet, later: seq<Packet>)
    ensures PushAll(env, Provide(env, w, PidOf(pk)), [pk] + later) == PushAll(env, w, [pk] + later)
  {
  }
}
