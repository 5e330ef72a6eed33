/** Routing (src/demultiplex.rs `Demultiplex::push`): with packets of many PIDs interleaved,
    each filter consumes its own, in order, and nothing else. */
module Routing {
  import opened Bytes
  import opened Packets
  import opened Filters
  import opened Demultiplexer
  import opened Processors
  import opened TableProcessors
  import opened TableFilters
  import opened EndToEnd
  import opened AnyStream

  /** The changes that one packet queues. */
  function Queued<F, C>(env: Env<F, C>, w: World<F, C>, p: Packet): seq<Change<F>> {
    var w := Provide(env, w, PidOf(p));
    if TransportError(p) || Scrambled(p) then [] else env.consume(w.filters[PidOf(p)], w.ctx, p).2
  }

  /** No packet queues a change to `pid`. */
  ghost predicate LeftAlone<F, C>(env: Env<F, C>, w: World<F, C>, ps: seq<Packet>, pid: Pid)
    decreases |ps|
  {
    ps == [] || (Avoids(Queued(env, w, ps[0]), pid) && LeftAlone(env, StepPacket(env, w, ps[0]), ps[1..], pid))
  }

  /** Those packets of a stream, in order. */
  function Own(ps: seq<Packet>, pid: Pid): (own: seq<Packet>)
    ensures forall p :: p in own ==> IsFor(p, pid)
  {
    if ps == [] then [] else (if IsFor(ps[0], pid) then [ps[0]] else []) + Own(ps[1..], pid)
  }

  /** The contexts in which they come. */
  function Contexts<F, C>(env: Env<F, C>, w: World<F, C>, ps: seq<Packet>, pid: Pid): (cs: seq<C>)
    ensures |cs| == |Own(ps, pid)|
    decreases |ps|
  {
    if ps == [] then []
    else (if IsFor(ps[0], pid) then [Provide(env, w, pid).ctx] else []) + Contexts(env, StepPacket(env, w, ps[0]), ps[1..], pid)
  }

  /** A filter that consumes these packets, one after another, each in its context. */
  function Fed<F, C>(env: Env<F, C>, f: F, own: seq<Packet>, cs: seq<C>): F
    requires |own| == |cs|
    decreases |own|
  {
    if own == [] then f else Fed(env, env.consume(f, cs[0], own[0]).0, own[1..], cs[1..])
  }

  /** Changes that avoid a PID leave its filter, or the lack of one. */
  lemma {:induction false} AvoidedStays<F>(m: map<Pid, F>, cs: seq<Change<F>>, pid: Pid)
    requires Avoids(cs, pid)
    ensures pid in ApplyAll(m, cs) <==> pid in m
    ensures pid in m ==> ApplyAll(m, cs)[pid] == m[pid]
    decreases |cs|
  {
    if cs != [] {
      AvoidedStays(ApplyChange(m, cs[0]), cs[1..], pid);
    }
  }

  lemma StepRoutes<F, C>(env: Env<F, C>, w: World<F, C>, p: Packet, pid: Pid)
    requires Avoids(Queued(env, w, p), pid)
    ensures var w' := StepPacket(env, w, p);
            && (pid in w'.filters <==> pid in w.filters || PidOf(p) == pid)
            && (pid in w.filters ==>
                  w'.filters[pid] == if IsFor(p, pid) then env.consume(w.filters[pid], w.ctx, p).0 else w.filters[pid])
  {
    hide PidOf, TransportError, Scrambled, ApplyAll, Avoids;
    if !TransportError(p) && !Scrambled(p) {
      var w1 := Provide(env, w, PidOf(p));
      var (f, c, changes) := env.consume(w1.filters[PidOf(p)], w1.ctx, p);
      AvoidedStays(w1.filters[PidOf(p) := f], changes, pid);
    }
  }

  /** Routing: over any stream that queues no change to `pid`, the filter there is the one that
      consumed exactly the packets of `pid`, in order, each in the context of its moment. */
  lemma {:induction false} Routed<F, C>(env: Env<F, C>, w: World<F, C>, ps: seq<Packet>, pid: Pid)
    requires pid in w.filters && LeftAlone(env, w, ps, pid)
    ensures var w' := PushAll(env, w, ps);
            pid in w'.filters && w'.filters[pid] == Fed(env, w.filters[pid], Own(ps, pid), Contexts(env, w, ps, pid))
    decreases |ps|
  {
    hide StepPacket, Queued, IsFor, Avoids;
    if ps != [] {
      var p, w1 := ps[0], StepPacket(env, w, ps[0]);
      StepRoutes(env, w, p, pid);
      Routed(env, w1, ps[1..], pid);
      if IsFor(p, pid) {
        var own, cs := Own(ps, pid), Contexts(env, w, ps, pid);
        assert own[0] == p && own[1..] == Own(ps[1..], pid);
        assert cs[0] == w.ctx && cs[1..] == Contexts(env, w1, ps[1..], pid);
      } else {
        assert [] + Own(ps[1..], pid) == Own(ps[1..], pid);
        assert [] + Contexts(env, w1, ps[1..], pid) == Contexts(env, w1, ps[1..], pid);
      }
    }
  }

  /** And a PID comes to have a filter exactly when it had one or a packet of it came. */
  lemma {:induction false} RoutedWhere<F, C>(env: Env<F, C>, w: World<F, C>, ps: seq<Packet>, pid: Pid)
    requires LeftAlone(env, w, ps, pid)
    ensures pid in PushAll(env, w, ps).filters <==> pid in w.filters || exists p :: p in ps && PidOf(p) == pid
    decreases |ps|
  {
    hide StepPacket, Queued, PidOf, Avoids;
    if ps != [] {
      StepRoutes(env, w, ps[0], pid);
      RoutedWhere(env, StepPacket(env, w, ps[0]), ps[1..], pid);
      assert forall p :: p in ps <==> p == ps[0] || p in ps[1..];
    }
  }

  // ----- table filters -----

  /** The state of a table filter does not depend on the context. */
  lemma StateAlone<F, C>(maker: Maker<F, C>, kind: TableKind, t: TableFilter, c: C, d: C, p: Packet)
    ensures ConsumeTable(maker, kind, t, c, p).0 == ConsumeTable(maker, kind, t, d, p).0
  {
    hide HandleOutputs, Relay;
    ConsumeGood(t.link, UnitStart(p), PayloadOf(p));
    var events := Framers.Consume(Sections.SectionSyntax, t.link, UnitStart(p), PayloadOf(p)).1;
    RelayChecked(PidFor(kind), t.last, events);
    var outs := Relay(PidFor(kind), t.last, events).1;
    RegisteredAre(maker, kind, t.registered, c, outs);
    RegisteredAre(maker, kind, t.registered, d, outs);
  }

  lemma {:induction false} TableFed<U, C>(a: App<U, C>, f: EndToEnd.Filter<U>, own: seq<Packet>, cs: seq<C>, c: C)
    requires IsTable(f) && |own| == |cs|
    ensures Fed(EnvOf(a), f, own, cs) == WithState(f, ConsumeTables(a.maker, KindOf(f), StateOf(f), c, own).0)
    decreases |own|
  {
    hide ConsumeTable;
    if own != [] {
      var r := ConsumeTable(a.maker, KindOf(f), StateOf(f), cs[0], own[0]);
      var now := WithState(f, r.0);
      assert EnvOf(a).consume(f, cs[0], own[0]).0 == now;
      var first := ConsumeTable(a.maker, KindOf(f), StateOf(f), c, own[0]);
      StateAlone(a.maker, KindOf(f), StateOf(f), cs[0], c, own[0]);
      TableFed(a, now, own[1..], cs[1..], first.1);
    }
  }

  /** A table filter in an interleaved stream is in the state that its own packets alone would
      leave it in, whatever packets, contexts and errors come between them. */
  lemma TableRouted<U, C>(a: App<U, C>, w: World<EndToEnd.Filter<U>, C>, ps: seq<Packet>, pid: Pid)
    requires pid in w.filters && IsTable(w.filters[pid]) && LeftAlone(EnvOf(a), w, ps, pid)
    ensures var w', f := PushAll(EnvOf(a), w, ps), w.filters[pid];
            && pid in w'.filters
            && w'.filters[pid] == WithState(f, ConsumeTables(a.maker, KindOf(f), StateOf(f), w.ctx, Own(ps, pid)).0)
  {
    hide EnvOf, PushAll, LeftAlone, ConsumeTables;
    Routed(EnvOf(a), w, ps, pid);
    TableFed(a, w.filters[pid], Own(ps, pid), Contexts(EnvOf(a), w, ps, pid), w.ctx);
  }

  /** So the PIDs that a new one has registered are those of the latest table accepted from its
      own packets. */
  lemma TableRegisters<U, C>(a: App<U, C>, w: World<EndToEnd.Filter<U>, C>, ps: seq<Packet>, pid: Pid)
    requires pid in w.filters && IsTable(w.filters[pid]) && StateOf(w.filters[pid]) == NewFilter
    requires LeftAlone(EnvOf(a), w, ps, pid)
    ensures var w', kind := PushAll(EnvOf(a), w, ps), KindOf(w.filters[pid]);
            && pid in w'.filters && IsTable(w'.filters[pid])
            && StateOf(w'.filters[pid]).registered == LatestPids(kind, Reaching(PidFor(kind), Own(ps, pid)), {})
  {
    hide EnvOf, PushAll, LeftAlone, ConsumeTables, Reaching, LatestPids, HandleOutputs;
    var kind, own := KindOf(w.filters[pid]), Own(ps, pid);
    TableRouted(a, w, ps, pid);
    NewFilterOver(a.maker, kind, w.ctx, own);
    RegisteredAre(a.maker, kind, {}, w.ctx, Reaching(PidFor(kind), own));
  }

  // ----- the application's own filters -----

  /** An application's filter over some packets, each in its context. */
  function AppFed<U, C>(consume: (U, C, Packet) -> (U, C, seq<Change<EndToEnd.Filter<U>>>), u: U, own: seq<Packet>, cs: seq<C>): U
    requires |own| == |cs|
    decreases |own|
  {
    if own == [] then u else AppFed(consume, consume(u, cs[0], own[0]).0, own[1..], cs[1..])
  }

  lemma {:induction false} AppFedIs<U, C>(a: App<U, C>, u: U, own: seq<Packet>, cs: seq<C>)
    requires |own| == |cs|
    ensures Fed(EnvOf(a), AppFilter(u), own, cs) == AppFilter(AppFed(a.consume, u, own, cs))
    decreases |own|
  {
    if own != [] {
      AppFedIs(a, a.consume(u, cs[0], own[0]).0, own[1..], cs[1..]);
    }
  }

  /** An application's filter in an interleaved stream has consumed its own packets, as it does. */
  lemma AppRouted<U, C>(a: App<U, C>, w: World<EndToEnd.Filter<U>, C>, ps: seq<Packet>, pid: Pid)
    requires pid in w.filters && w.filters[pid].AppFilter? && LeftAlone(EnvOf(a), w, ps, pid)
    ensures var w' := PushAll(EnvOf(a), w, ps);
            && pid in w'.filters
            && w'.filters[pid] == AppFilter(AppFed(a.consume, w.filters[pid].app, Own(ps, pid), Contexts(EnvOf(a), w, ps, pid)))
  {
    hide EnvOf, PushAll, LeftAlone;
    Routed(EnvOf(a), w, ps, pid);
    AppFedIs(a, w.filters[pid].app, Own(ps, pid), Contexts(EnvOf(a), w, ps, pid));
  }
}
