/** The PES packet filter of src/pes.rs: a continuity counter and a three-state machine that
    turn transport stream packets into calls on an elementary stream consumer. */
module Pes {
  import opened Bytes
  import opened Packets

  datatype PesState = Begin | Started | IgnoreRest

  datatype Fault = PesHeaderParseError | MalformedPayload | MissingPayloadStartIndicator

  /** The calls on the consumer, and the reports to the error sink. */
  datatype Event =
    | StartStream
    | BeginPacket(header: seq<byte>)
    | ContinuePacket(data: seq<byte>)
    | EndPacket
    | ContinuityError
    | Report(fault: Fault)

  /** `PesHeader::from_bytes` accepts: six bytes, beginning with the start code prefix. */
  predicate HeaderParses(payload: seq<byte>) {
    |payload| >= 6 && payload[0] == 0 && payload[1] == 0 && payload[2] == 1
  }

  /** `ContinuityCounter::follows`. */
  predicate Follows(now: nat, before: nat) {
    (before + 1) % 16 == now
  }

  /** The counter advances with a payload and stands still without one. */
  predicate Continues(before: nat, p: Packet) {
    if HasPayload(p) then Follows(Counter(p), before) else Counter(p) == before
  }

  predicate IsContinuous(counter: Option<nat>, p: Packet) {
    counter.Some? ==> Continues(counter.value, p)
  }

  datatype Filter = Filter(counter: Option<nat>, state: PesState)

  const NewFilter := Filter(None, Begin)

  /** The calls for a packet that begins a PES packet, in the state after the continuity check. */
  function StartEvents(state: PesState, payload: Payload): seq<Event> {
    (match state
     case Started => [EndPacket]
     case Begin => [StartStream]
     case IgnoreRest => [])
    + (match payload
       case Ok(Some(data)) => if HeaderParses(data) then [BeginPacket(data)] else [Report(PesHeaderParseError)]
       case Ok(None) => []
       case Err(_) => [Report(MalformedPayload)])
  }

  /** The calls for any other packet. */
  function MoreEvents(state: PesState, payload: Payload): seq<Event> {
    match state
    case Started =>
      (match payload
       case Ok(Some(data)) => if data != [] then [ContinuePacket(data)] else []
       case Ok(None) => []
       case Err(_) => [Report(MalformedPayload)])
    case Begin => [Report(MissingPayloadStartIndicator)]
    case IgnoreRest => []
  }

  function Step(f: Filter, p: Packet): (Filter, seq<Event>) {
    var continuous := IsContinuous(f.counter, p);
    var state := if continuous then f.state else IgnoreRest;
    var lost := if continuous then [] else [ContinuityError];
    if UnitStart(p) then (Filter(Some(Counter(p)), Started), lost + StartEvents(state, PayloadOf(p)))
    else (Filter(Some(Counter(p)), state), lost + MoreEvents(state, PayloadOf(p)))
  }

  function Run(f: Filter, ps: seq<Packet>): (Filter, seq<Event>)
    decreases |ps|
  {
    if ps == [] then (f, [])
    else
      var first := Step(f, ps[0]);
      var rest := Run(first.0, ps[1..]);
      (rest.0, first.1 + rest.1)
  }

  class PesPacketFilter {
    var ccounter: Option<nat>
    var state: PesState

    ghost function View(): Filter
      reads this
    {
      Filter(ccounter, state)
    }

    constructor ()
      ensures View() == NewFilter
    {
      ccounter := None;
      state := Begin;
    }

    /** `consume`: one packet, and the calls it makes in order. */
    method ConsumePacket(p: Packet) returns (out: seq<Event>)
      modifies this
      ensures (View(), out) == Step(old(View()), p)
    {
      out := [];
      if !IsContinuous(ccounter, p) {
        out := [ContinuityError];
        state := IgnoreRest;
      }
      ccounter := Some(Counter(p));
      if UnitStart(p) {
        ghost var lost, before := out, state;
        ghost var opening: seq<Event> := [];
        if state == Started {
          opening := [EndPacket];
          out := out + [EndPacket];
        } else {
          if state == Begin {
            opening := [StartStream];
            out := out + [StartStream];
          }
          state := Started;
        }
        assert out == lost + opening;
        match PayloadOf(p) {
          case Ok(Some(data)) =>
            if HeaderParses(data) {
              out := out + [BeginPacket(data)];
            } else {
              out := out + [Report(PesHeaderParseError)];
            }
          case Ok(None) =>
          case Err(_) => out := out + [Report(MalformedPayload)];
        }
        JoinEvents(lost, opening, out[|lost + opening|..]);
        assert out == lost + StartEvents(before, PayloadOf(p));
      } else {
        ghost var lost := out;
        assert lost + [] == lost;
        match state {
          case Started =>
            match PayloadOf(p) {
              case Ok(Some(data)) =>
                if data != [] {
                  out := out + [ContinuePacket(data)];
                }
              case Ok(None) =>
              case Err(_) => out := out + [Report(MalformedPayload)];
            }
          case Begin => out := out + [Report(MissingPayloadStartIndicator)];
          case IgnoreRest =>
        }
      }
    }
  }

  // ----- one packet, event by event -----

  /** The packet follows in sequence: one more than the last counter, modulo 16, if it carries a
      payload, and the same if not. */
  predicate InSequence(counter: Option<nat>, p: Packet) {
    counter.Some? ==> (p[3] & 0x0f) as nat == if p[3] & 0x10 != 0 then (counter.value + 1) % 16 else counter.value
  }

  /** The payload is there and begins with a PES packet's start code, 0, 0, 1, and has the six
      bytes of the fixed header. */
  predicate StartsPes(payload: Payload) {
    && payload.Ok? && payload.value.Some?
    && var d := payload.value.value; |d| >= 6 && d[0] == 0 && d[1] == 0 && d[2] == 1
  }

  /** Which events the two kinds of packet cause after the continuity check. */
  lemma StartExactly(state: PesState, payload: Payload)
    ensures var events := StartEvents(state, payload);
            && (StartStream in events <==> state == Begin) && (EndPacket in events <==> state == Started)
            && (forall d :: BeginPacket(d) in events <==> StartsPes(payload) && payload == Ok(Some(d)))
            && (Report(PesHeaderParseError) in events <==> payload.Ok? && payload.value.Some? && !StartsPes(payload))
            && (Report(MalformedPayload) in events <==> payload.Err?)
            && (forall e :: e in events ==> !e.ContinuePacket? && e != ContinuityError && e != Report(MissingPayloadStartIndicator))
            && (|events| <= 1 || (|events| == 2 && events[0] != events[1]))
  {
  }

  lemma MoreExactly(state: PesState, payload: Payload)
    requires payload.Ok? && payload.value.Some? ==> payload.value.value != []
    ensures var events := MoreEvents(state, payload);
            && (forall d :: ContinuePacket(d) in events <==> state == Started && payload == Ok(Some(d)))
            && (Report(MalformedPayload) in events <==> payload.Err? && state == Started)
            && (Report(MissingPayloadStartIndicator) in events <==> state == Begin)
            && (forall e :: e in events ==> e.ContinuePacket? || e == Report(MalformedPayload) || e == Report(MissingPayloadStartIndicator))
            && |events| <= 1
  {
  }

  lemma SequenceIs(counter: Option<nat>, p: Packet)
    ensures IsContinuous(counter, p) == InSequence(counter, p)
  {
  }

  lemma StepParts(f: Filter, p: Packet)
    ensures var state := if InSequence(f.counter, p) then f.state else IgnoreRest;
            var rest := if p[1] & 0x40 != 0 then StartEvents(state, PayloadOf(p)) else MoreEvents(state, PayloadOf(p));
            && Step(f, p).1 == (if InSequence(f.counter, p) then [] else [ContinuityError]) + rest
            && Step(f, p).0 == Filter(Some((p[3] & 0x0f) as nat), if p[1] & 0x40 != 0 then Started else state)
  {
    hide PayloadOf, StartEvents, MoreEvents, IsContinuous, InSequence;
    SequenceIs(f.counter, p);
  }

  /** Every event of a packet, and the state it leaves, said of the packet's bits: each event
      happens exactly when this says, and at most once. */
  lemma StepExactly(f: Filter, p: Packet)
    ensures var start, inSequence, payload := p[1] & 0x40 != 0, InSequence(f.counter, p), PayloadOf(p);
            var (g, events) := Step(f, p);
            && (ContinuityError in events <==> !inSequence)
            && (StartStream in events <==> start && inSequence && f.state == Begin)
            && (EndPacket in events <==> start && inSequence && f.state == Started)
            && (forall d :: BeginPacket(d) in events <==> start && StartsPes(payload) && payload == Ok(Some(d)))
            && (forall d :: ContinuePacket(d) in events <==> !start && inSequence && f.state == Started && payload == Ok(Some(d)))
            && (Report(PesHeaderParseError) in events <==> start && payload.Ok? && payload.value.Some? && !StartsPes(payload))
            && (Report(MalformedPayload) in events <==> payload.Err? && (start || (inSequence && f.state == Started)))
            && (Report(MissingPayloadStartIndicator) in events <==> !start && inSequence && f.state == Begin)
            && (forall i, j :: 0 <= i < j < |events| ==> events[i] != events[j])
            && g.counter == Some((p[3] & 0x0f) as nat)
            && g.state == (if start then Started else if inSequence then f.state else IgnoreRest)
  {
    hide PayloadOf, StartEvents, MoreEvents, InSequence, Step, StartsPes;
    var inSequence := InSequence(f.counter, p);
    var state := if inSequence then f.state else IgnoreRest;
    PayloadBounds(p);
    StepParts(f, p);
    StartExactly(state, PayloadOf(p));
    MoreExactly(state, PayloadOf(p));
    var rest := if p[1] & 0x40 != 0 then StartEvents(state, PayloadOf(p)) else MoreEvents(state, PayloadOf(p));
    AfterLoss(inSequence, rest);
    OnceEach(inSequence, rest);
  }

  lemma AfterLoss(inSequence: bool, rest: seq<Event>)
    ensures var events := (if inSequence then [] else [ContinuityError]) + rest;
            forall e :: e in events <==> (!inSequence && e == ContinuityError) || e in rest
  {
  }

  lemma OnceEach(inSequence: bool, rest: seq<Event>)
    requires ContinuityError !in rest && (|rest| <= 1 || (|rest| == 2 && rest[0] != rest[1]))
    ensures var events := (if inSequence then [] else [ContinuityError]) + rest;
            forall i, j :: 0 <= i < j < |events| ==> events[i] != events[j]
  {
    var events := (if inSequence then [] else [ContinuityError]) + rest;
    forall i, j | 0 <= i < j < |events|
      ensures events[i] != events[j]
    {
      if !inSequence {
        assert events[j] == rest[j - 1] && (i > 0 ==> events[i] == rest[i - 1]);
      }
    }
  }

  lemma JoinEvents(a: seq<Event>, b: seq<Event>, c: seq<Event>)
    ensures (a + b) + c == a + (b + c)
    ensures b + [] == b
  {
  }

  lemma {:induction false} RunConcat(f: Filter, a: seq<Packet>, b: seq<Packet>)
    ensures var first := Run(f, a);
            var second := Run(first.0, b);
            Run(f, a + b) == (second.0, first.1 + second.1)
    decreases |a|
  {
    hide Step;
    if a == [] {
      assert a + b == b;
      assert [] + Run(f, b).1 == Run(f, b).1;
    } else {
      assert (a + b)[0] == a[0] && (a + b)[1..] == a[1..] + b;
      var first := Step(f, a[0]);
      RunConcat(first.0, a[1..], b);
      var middle := Run(first.0, a[1..]);
      var second := Run(middle.0, b);
      assert first.1 + (middle.1 + second.1) == (first.1 + middle.1) + second.1;
    }
  }

  // ----- the language of calls -----

  /** The calls on the consumer, without the reports to the error sink. */
  function Calls(events: seq<Event>): seq<Event> {
    if events == [] then []
    else (if events[0].Report? then [] else [events[0]]) + Calls(events[1..])
  }

  lemma {:induction false} CallsConcat(a: seq<Event>, b: seq<Event>)
    ensures Calls(a + b) == Calls(a) + Calls(b)
  {
    if a == [] {
      assert a + b == b;
    } else {
      assert (a + b)[0] == a[0] && (a + b)[1..] == a[1..] + b;
      CallsConcat(a[1..], b);
    }
  }

  lemma {:induction false} CallsOf(events: seq<Event>, e: Event)
    ensures e in Calls(events) <==> e in events && !e.Report?
  {
    if events != [] {
      CallsOf(events[1..], e);
      assert events == [events[0]] + events[1..];
    }
  }

  lemma StepStarts(f: Filter, p: Packet)
    ensures Step(f, p).0.state == Begin ==> f.state == Begin && forall e :: e in Step(f, p).1 ==> e.Report?
    ensures StartStream in Step(f, p).1 ==>
              f.state == Begin && Step(f, p).0.state != Begin && Step(f, p).1[0] == StartStream
    ensures forall i :: 1 <= i < |Step(f, p).1| ==> Step(f, p).1[i] != StartStream
  {
  }

  lemma {:induction false} NoSecondStart(f: Filter, ps: seq<Packet>)
    requires f.state != Begin
    ensures StartStream !in Run(f, ps).1
    decreases |ps|
  {
    hide Step;
    if ps != [] {
      StepStarts(f, ps[0]);
      NoSecondStart(Step(f, ps[0]).0, ps[1..]);
    }
  }

  lemma {:induction false} ReportsOnly(events: seq<Event>)
    requires forall e :: e in events ==> e.Report?
    ensures Calls(events) == []
  {
    if events != [] {
      assert events[0] in events;
      ReportsOnly(events[1..]);
    }
  }

  /** Over every run, the stream is started at most once, and only by the first call. */
  lemma {:induction false} StartStreamFirst(f: Filter, ps: seq<Packet>)
    ensures forall i :: 0 < i < |Calls(Run(f, ps).1)| ==> Calls(Run(f, ps).1)[i] != StartStream
    decreases |ps|
  {
    hide Step;
    if ps != [] {
      var first := Step(f, ps[0]);
      var rest := Run(first.0, ps[1..]);
      StepStarts(f, ps[0]);
      CallsConcat(first.1, rest.1);
      if first.0.state == Begin {
        ReportsOnly(first.1);
        StartStreamFirst(first.0, ps[1..]);
      } else {
        NoSecondStart(first.0, ps[1..]);
        CallsOf(rest.1, StartStream);
        FirstCallOnly(first.1);
      }
    }
  }

  lemma {:induction false} FirstCallOnly(events: seq<Event>)
    requires forall i :: 1 <= i < |events| ==> events[i] != StartStream
    ensures forall i :: 1 <= i < |Calls(events)| ==> Calls(events)[i] != StartStream
  {
    if events != [] {
      CallsOf(events[1..], StartStream);
    }
  }

  /** Where a consumer stands between two calls: before the stream, inside a packet it was
      given, just after the end of one, or cut off by a continuity error. */
  datatype Phase = Before | Opening | Inside | Ended | CutOff

  /** The calls a consumer may be given in each phase. */
  function Next(phase: Phase, e: Event): Option<Phase> {
    match (phase, e)
    case (Before, StartStream) => Some(Opening)
    case (Before, ContinuityError) => Some(CutOff)
    case (Opening, BeginPacket(_)) => Some(Inside)
    case (Inside, ContinuePacket(_)) => Some(Inside)
    case (Inside, EndPacket) => Some(Ended)
    case (Inside, ContinuityError) => Some(CutOff)
    case (Ended, BeginPacket(_)) => Some(Inside)
    case (CutOff, BeginPacket(_)) => Some(Inside)
    case (CutOff, ContinuityError) => Some(CutOff)
    case _ => None
  }

  function Accept(phase: Phase, calls: seq<Event>): Option<Phase>
    decreases |calls|
  {
    if calls == [] then Some(phase)
    else
      match Next(phase, calls[0])
      case None => None
      case Some(next) => Accept(next, calls[1..])
  }

  lemma {:induction false} AcceptConcat(phase: Phase, a: seq<Event>, b: seq<Event>)
    requires Accept(phase, a).Some?
    ensures Accept(phase, a + b) == Accept(Accept(phase, a).value, b)
    decreases |a|
  {
    if a == [] {
      assert a + b == b;
    } else {
      assert (a + b)[0] == a[0] && (a + b)[1..] == a[1..] + b;
      AcceptConcat(Next(phase, a[0]).value, a[1..], b);
    }
  }

  /** Every packet that begins a PES packet carries a header that parses. */
  ghost predicate StartsParse(ps: seq<Packet>) {
    forall p :: p in ps && UnitStart(p) ==> StartParses(p)
  }

  predicate StartParses(p: Packet) {
    var payload := PayloadOf(p);
    payload.Ok? && payload.value.Some? && HeaderParses(payload.value.value)
  }

  function PhaseOf(state: PesState): Phase {
    match state
    case Begin => Before
    case Started => Inside
    case IgnoreRest => CutOff
  }

  lemma StepAccepted(f: Filter, p: Packet)
    requires UnitStart(p) ==> StartParses(p)
    ensures Accept(PhaseOf(f.state), Calls(Step(f, p).1)) == Some(PhaseOf(Step(f, p).0.state))
  {
    hide HasPayload, Counter, UnitStart;
    var continuous := IsContinuous(f.counter, p);
    var state := if continuous then f.state else IgnoreRest;
    var lost := if continuous then [] else [ContinuityError];
    var rest := if UnitStart(p) then StartEvents(state, PayloadOf(p)) else MoreEvents(state, PayloadOf(p));
    CallsConcat(lost, rest);
    assert Calls(lost) == lost;
    assert Accept(PhaseOf(f.state), lost) == Some(PhaseOf(state));
    AcceptConcat(PhaseOf(f.state), lost, Calls(rest));
    RestAccepted(state, p);
  }

  lemma RestAccepted(state: PesState, p: Packet)
    requires UnitStart(p) ==> StartParses(p)
    ensures var rest := if UnitStart(p) then StartEvents(state, PayloadOf(p)) else MoreEvents(state, PayloadOf(p));
            Accept(PhaseOf(state), Calls(rest)) == Some(PhaseOf(if UnitStart(p) then Started else state))
  {
    hide HasPayload, Counter, UnitStart, PayloadOf, HeaderParses;
    if UnitStart(p) {
      var begin := BeginPacket(PayloadOf(p).value.value);
      match state {
        case Started =>
          assert StartEvents(state, PayloadOf(p)) == [EndPacket, begin];
          TwoCalls(EndPacket, begin);
          assert Accept(Ended, [begin]) == Some(Inside);
        case Begin =>
          assert StartEvents(state, PayloadOf(p)) == [StartStream, begin];
          TwoCalls(StartStream, begin);
          assert Accept(Opening, [begin]) == Some(Inside);
        case IgnoreRest =>
          assert StartEvents(state, PayloadOf(p)) == [begin];
          assert Calls([begin]) == [begin];
      }
    }
  }

  lemma TwoCalls(a: Event, b: Event)
    requires !a.Report? && !b.Report?
    ensures Calls([a, b]) == [a, b] && [a, b][1..] == [b]
  {
    assert [a, b][1..] == [b];
    assert Calls([b]) == [b];
  }

  /** If the header of every start packet parses, then over every run, with whatever losses,
      each continue_packet and end_packet falls inside a begin_packet that no continuity_error
      has cut off since, and each end_packet and the start_stream is followed by a
      begin_packet. */
  lemma {:induction false} CallsFollowProtocol(f: Filter, ps: seq<Packet>)
    requires StartsParse(ps)
    ensures Accept(PhaseOf(f.state), Calls(Run(f, ps).1)) == Some(PhaseOf(Run(f, ps).0.state))
    decreases |ps|
  {
    hide Step, StartParses, UnitStart;
    if ps != [] {
      assert ps[0] in ps;
      assert StartsParse(ps[1..]);
      var first := Step(f, ps[0]);
      StepAccepted(f, ps[0]);
      CallsFollowProtocol(first.0, ps[1..]);
      CallsConcat(first.1, Run(first.0, ps[1..]).1);
      AcceptConcat(PhaseOf(f.state), Calls(first.1), Calls(Run(first.0, ps[1..]).1));
    }
  }

  /** A start packet whose header does not parse opens nothing: its calls are lawful, but they
      leave the consumer outside any packet. */
  lemma UnparsedPhase(f: Filter, p: Packet)
    requires UnitStart(p) && !StartParses(p)
    ensures var phase := Accept(PhaseOf(f.state), Calls(Step(f, p).1));
            phase == Some(Opening) || phase == Some(Ended) || phase == Some(CutOff)
    ensures Step(f, p).0 == Filter(Some(Counter(p)), Started)
  {
    hide HasPayload, Counter, UnitStart, PayloadOf, HeaderParses, IsContinuous, StartEvents;
    var continuous := IsContinuous(f.counter, p);
    var state := if continuous then f.state else IgnoreRest;
    var lost := if continuous then [] else [ContinuityError];
    UnparsedCalls(state, p);
    CallsConcat(lost, StartEvents(state, PayloadOf(p)));
    assert Calls(lost) == lost;
    assert Accept(PhaseOf(f.state), lost) == Some(PhaseOf(state));
    AcceptConcat(PhaseOf(f.state), lost, Calls(StartEvents(state, PayloadOf(p))));
  }

  lemma UnparsedCalls(state: PesState, p: Packet)
    requires !StartParses(p)
    ensures var phase := Accept(PhaseOf(state), Calls(StartEvents(state, PayloadOf(p))));
            phase == Some(Opening) || phase == Some(Ended) || phase == Some(CutOff)
  {
    hide PayloadOf, HeaderParses;
    var opening := match state case Started => [EndPacket] case Begin => [StartStream] case IgnoreRest => [];
    var rest := StartEvents(state, PayloadOf(p))[|opening|..];
    assert StartEvents(state, PayloadOf(p)) == opening + rest;
    assert Calls(rest) == [];
    CallsConcat(opening, rest);
    assert Calls(opening) == opening && opening + [] == opening;
  }

  /** So the filter is inside a packet that its consumer was never given. */
  lemma UnparsedStart(f: Filter, p: Packet)
    requires UnitStart(p) && !StartParses(p)
    ensures Accept(PhaseOf(f.state), Calls(Step(f, p).1)) != Some(PhaseOf(Step(f, p).0.state))
  {
    hide Step, StartParses, UnitStart;
    UnparsedPhase(f, p);
  }

  ghost predicate InStepAt(ps: seq<Packet>, n: nat)
    requires n <= |ps|
  {
    var r := Run(NewFilter, ps[..n]);
    Accept(Before, Calls(r.1)) == Some(PhaseOf(r.0.state))
  }

  /** Exactly when the proviso is needed: at every point of a run the consumer has been given
      a lawful sequence of calls and stands where the filter takes it to stand, if and only if
      every start packet carries a header that parses. */
  lemma InStepExactly(ps: seq<Packet>)
    ensures (forall n: nat :: n <= |ps| ==> InStepAt(ps, n)) <==> StartsParse(ps)
  {
    hide Step, StartParses, UnitStart, Run, Accept, Calls;
    if StartsParse(ps) {
      forall n: nat | n <= |ps|
        ensures InStepAt(ps, n)
      {
        assert forall p :: p in ps[..n] ==> p in ps;
        CallsFollowProtocol(NewFilter, ps[..n]);
      }
    } else {
      var p :| p in ps && UnitStart(p) && !StartParses(p);
      var n: nat :| n < |ps| && ps[n] == p;
      if InStepAt(ps, n) {
        var r := Run(NewFilter, ps[..n]);
        assert ps[..n + 1] == ps[..n] + [p];
        RunConcat(NewFilter, ps[..n], [p]);
        RunOne(r.0, p);
        CallsConcat(r.1, Step(r.0, p).1);
        AcceptConcat(Before, Calls(r.1), Calls(Step(r.0, p).1));
        UnparsedStart(r.0, p);
        assert !InStepAt(ps, n + 1);
      }
    }
  }

  lemma RunOne(f: Filter, p: Packet)
    ensures Run(f, [p]) == Step(f, p)
  {
    hide Step;
    assert [p][1..] == [];
    assert Step(f, p).1 + [] == Step(f, p).1;
  }

  /** Without that proviso it fails: a start packet whose header does not parse opens nothing,
      but the next packet's payload is still handed over. */
  lemma UnparsedStartStillContinues(bad: Packet, more: Packet)
    requires UnitStart(bad) && PayloadOf(bad).Ok? && PayloadOf(bad).value.Some? && !StartParses(bad)
    requires !UnitStart(more) && Continues(Counter(bad), more)
    requires PayloadOf(more).Ok? && PayloadOf(more).value.Some? && PayloadOf(more).value.value != []
    ensures Calls(Run(NewFilter, [bad, more]).1) == [StartStream, ContinuePacket(PayloadOf(more).value.value)]
    ensures Accept(Before, Calls(Run(NewFilter, [bad, more]).1)) == None
  {
    hide HasPayload, Counter, UnitStart, PayloadOf, Continues, HeaderParses;
    var go := ContinuePacket(PayloadOf(more).value.value);
    var f1 := Step(NewFilter, bad).0;
    assert [bad, more][1..] == [more];
    assert Step(NewFilter, bad).1 == [StartStream, Report(PesHeaderParseError)];
    assert Step(f1, more).1 == [go];
    assert Run(f1, [more]).1 == [go];
    assert Run(NewFilter, [bad, more]).1 == [StartStream, Report(PesHeaderParseError)] + [go];
    CallsConcat([StartStream, Report(PesHeaderParseError)], [go]);
    CallsConcat([StartStream], [Report(PesHeaderParseError)]);
    assert [StartStream] + [Report(PesHeaderParseError)] == [StartStream, Report(PesHeaderParseError)];
    assert Calls([StartStream]) == [StartStream] && Calls([Report(PesHeaderParseError)]) == [] && Calls([go]) == [go];
    assert [StartStream, go][1..] == [go];
    assert Accept(Opening, [go]) == None;
  }

  /** `p` may come after the first `n` packets: what was called by then and for `p` is lawful. */
  ghost predicate LawfulAfter(ps: seq<Packet>, n: nat, p: Packet)
    requires n <= |ps|
  {
    Accept(Before, Calls(Run(NewFilter, ps[..n] + [p]).1)).Some?
  }

  lemma RunSnoc(f: Filter, ps: seq<Packet>, p: Packet)
    ensures var first := Run(f, ps);
            var last := Step(first.0, p);
            Run(f, ps + [p]) == (last.0, first.1 + last.1) && Calls(first.1 + last.1) == Calls(first.1) + Calls(last.1)
  {
    hide Step, Run;
    RunConcat(f, ps, [p]);
    RunOne(Run(f, ps).0, p);
    CallsConcat(Run(f, ps).1, Step(Run(f, ps).0, p).1);
  }

  /** A packet that continues a PES packet with one byte, and the counter after `c`. */
  function Following(c: nat): Packet
    requires c < 16
  {
    Carry(0x00, 0x00, ByteOf((c + 1) % 16), [0x00])
  }

  lemma LowNibble(b: byte)
    requires b as nat < 16
    ensures (b & 0x0f) as nat == b as nat && (0x00 as byte) & 0x40 == 0
  {
  }

  lemma FollowingContinues(c: nat)
    requires c < 16
    ensures !UnitStart(Following(c)) && Continues(c, Following(c)) && PayloadOf(Following(c)) == Ok(Some([0x00]))
  {
    hide Carry;
    CarryRoundTrip(0x00, 0x00, ByteOf((c + 1) % 16), [0x00]);
    LowNibble(ByteOf((c + 1) % 16));
  }

  lemma FirstUnparsed(ps: seq<Packet>) returns (n: nat)
    requires !StartsParse(ps)
    ensures n < |ps| && StartsParse(ps[..n]) && UnitStart(ps[n]) && !StartParses(ps[n])
  {
    hide StartParses, UnitStart;
    n := 0;
    while !(UnitStart(ps[n]) && !StartParses(ps[n]))
      invariant n < |ps| && StartsParse(ps[..n])
      invariant !StartsParse(ps[n..])
      decreases |ps| - n
    {
      assert ps[..n + 1] == ps[..n] + [ps[n]];
      assert forall p :: p in ps[n..] ==> p == ps[n] || p in ps[n + 1..];
      n := n + 1;
    }
  }

  /** After a start packet that does not parse, a packet that just continues is handed over
      outside any packet. */
  lemma UnlawfulAfterUnparsed(ps: seq<Packet>, n: nat)
    requires n < |ps| && StartsParse(ps[..n]) && UnitStart(ps[n]) && !StartParses(ps[n])
    ensures !LawfulAfter(ps, n + 1, Following(Counter(ps[n])))
  {
    hide Step, StartParses, UnitStart, Run, Calls, PayloadOf, Following, Continues;
    var bad, next := ps[n], Following(Counter(ps[n]));
    var r := Run(NewFilter, ps[..n]);
    CallsFollowProtocol(NewFilter, ps[..n]);
    UnparsedPhase(r.0, bad);
    RunSnoc(NewFilter, ps[..n], bad);
    assert ps[..n + 1] == ps[..n] + [bad];
    AcceptConcat(Before, Calls(r.1), Calls(Step(r.0, bad).1));
    var r' := Run(NewFilter, ps[..n + 1]);
    FollowingContinues(Counter(bad));
    HandedOver(Step(r.0, bad).0, next, [0x00]);
    RunSnoc(NewFilter, ps[..n + 1], next);
    AcceptConcat(Before, Calls(r'.1), [ContinuePacket([0x00])]);
  }

  lemma HandedOver(f: Filter, p: Packet, data: seq<byte>)
    requires f.state == Started && IsContinuous(f.counter, p) && !UnitStart(p) && data != []
    requires PayloadOf(p) == Ok(Some(data))
    ensures Calls(Step(f, p).1) == [ContinuePacket(data)]
  {
    hide PayloadOf, UnitStart, IsContinuous;
    assert Step(f, p).1 == [] + [ContinuePacket(data)] == [ContinuePacket(data)];
    assert [ContinuePacket(data)][1..] == [] && Calls([]) == [];
  }

  /** The proviso is needed for the call language itself: the calls are lawful at every point
      of a run, whatever well-formed packet comes next there, if and only if every start packet
      of the run carries a header that parses. */
  lemma LawfulExactly(ps: seq<Packet>)
    ensures StartsParse(ps) <==>
              forall n: nat, p: Packet :: n <= |ps| && (UnitStart(p) ==> StartParses(p)) ==> LawfulAfter(ps, n, p)
  {
    hide StartParses, UnitStart, Run, Accept, Calls, Following;
    if StartsParse(ps) {
      forall n: nat, p: Packet | n <= |ps| && (UnitStart(p) ==> StartParses(p))
        ensures LawfulAfter(ps, n, p)
      {
        CallsFollowProtocol(NewFilter, ps[..n] + [p]);
      }
    } else {
      var n := FirstUnparsed(ps);
      UnlawfulAfterUnparsed(ps, n);
      FollowingContinues(Counter(ps[n]));
    }
  }

  // ----- conservation -----

  /** Each packet's counter continues from the one before it. */
  ghost predicate Continuous(ps: seq<Packet>) {
    forall i :: 0 < i < |ps| ==> Continues(Counter(ps[i - 1]), ps[i])
  }

  /** `data` added to the last of the packets collected so far, if there is one. */
  function Extend(groups: seq<seq<byte>>, data: seq<byte>): seq<seq<byte>> {
    if groups == [] then [] else groups[..|groups| - 1] + [groups[|groups| - 1] + data]
  }

  /** What a consumer collects: the bytes of each begin_packet and its continue_packets. */
  function Collected(groups: seq<seq<byte>>, events: seq<Event>): seq<seq<byte>>
    decreases |events|
  {
    if events == [] then groups
    else
      match events[0]
      case BeginPacket(data) => Collected(groups + [data], events[1..])
      case ContinuePacket(data) => Collected(Extend(groups, data), events[1..])
      case _ => Collected(groups, events[1..])
  }

  function PayloadBytes(p: Packet): seq<byte> {
    match PayloadOf(p)
    case Ok(Some(data)) => data
    case _ => []
  }

  /** What was sent: the payloads from each start packet up to the next one, joined. */
  function Grouped(groups: seq<seq<byte>>, ps: seq<Packet>): seq<seq<byte>>
    decreases |ps|
  {
    if ps == [] then groups
    else if UnitStart(ps[0]) then Grouped(groups + [PayloadBytes(ps[0])], ps[1..])
    else Grouped(Extend(groups, PayloadBytes(ps[0])), ps[1..])
  }

  lemma {:induction false} CollectedConcat(groups: seq<seq<byte>>, a: seq<Event>, b: seq<Event>)
    ensures Collected(groups, a + b) == Collected(Collected(groups, a), b)
    decreases |a|
  {
    hide Extend;
    if a == [] {
      assert a + b == b;
    } else {
      assert (a + b)[0] == a[0] && (a + b)[1..] == a[1..] + b;
      match a[0] {
        case BeginPacket(data) => CollectedConcat(groups + [data], a[1..], b);
        case ContinuePacket(data) => CollectedConcat(Extend(groups, data), a[1..], b);
        case _ => CollectedConcat(groups, a[1..], b);
      }
    }
  }

  lemma ExtendNothing(groups: seq<seq<byte>>)
    ensures Extend(groups, []) == groups
  {
    if groups != [] {
      assert groups[|groups| - 1] + [] == groups[|groups| - 1];
    }
  }

  /** One packet in a continuous stream adds its payload where it belongs. */
  lemma StepCollected(f: Filter, p: Packet, groups: seq<seq<byte>>)
    requires f.state != IgnoreRest && (f.state == Begin ==> groups == [])
    requires IsContinuous(f.counter, p) && PayloadOf(p).Ok? && (UnitStart(p) ==> StartParses(p))
    ensures Collected(groups, Step(f, p).1)
         == if UnitStart(p) then groups + [PayloadBytes(p)] else Extend(groups, PayloadBytes(p))
    ensures Step(f, p).0.state == (if UnitStart(p) then Started else f.state)
    ensures Step(f, p).0.counter == Some(Counter(p))
  {
    hide HasPayload, Counter, UnitStart, PayloadOf, HeaderParses, IsContinuous;
    if UnitStart(p) {
      var begin := BeginPacket(PayloadBytes(p));
      assert Step(f, p).1 == [] + ((if f.state == Started then [EndPacket] else [StartStream]) + [begin]);
      var first := if f.state == Started then EndPacket else StartStream;
      assert Step(f, p).1 == [first, begin] && [first, begin][1..] == [begin];
      assert Collected(groups, [begin]) == groups + [PayloadBytes(p)];
    } else {
      ExtendNothing(groups);
      assert [] + MoreEvents(f.state, PayloadOf(p)) == MoreEvents(f.state, PayloadOf(p));
    }
  }

  lemma ContinuousRest(ps: seq<Packet>)
    requires Continuous(ps) && ps != []
    ensures Continuous(ps[1..])
    ensures |ps| > 1 ==> Continues(Counter(ps[0]), ps[1])
  {
    hide Continues, Counter;
    assert forall i :: 0 < i < |ps| - 1 ==> ps[1..][i] == ps[i + 1] && ps[1..][i - 1] == ps[i];
  }

  lemma {:induction false} CollectedFrom(f: Filter, ps: seq<Packet>, groups: seq<seq<byte>>)
    requires f.state != IgnoreRest && (f.state == Begin ==> groups == [])
    requires Continuous(ps) && StartsParse(ps) && forall p :: p in ps ==> PayloadOf(p).Ok?
    requires ps != [] ==> IsContinuous(f.counter, ps[0])
    ensures Collected(groups, Run(f, ps).1) == Grouped(groups, ps)
    decreases |ps|
  {
    hide Step, StartParses, UnitStart, PayloadOf, Continues, Counter, Extend, Collected, Continuous;
    if ps == [] {
      assert Collected(groups, []) == groups by { NothingCollected(groups); }
    } else {
      var p, rest := ps[0], ps[1..];
      assert p in ps;
      ContinuousRest(ps);
      StepCollected(f, p, groups);
      var first := Step(f, p);
      var now := if UnitStart(p) then groups + [PayloadBytes(p)] else Extend(groups, PayloadBytes(p));
      if first.0.state == Begin {
        assert Extend([], PayloadBytes(p)) == [] by { ExtendNone(PayloadBytes(p)); }
      }
      CollectedFrom(first.0, rest, now);
      CollectedConcat(groups, first.1, Run(first.0, rest).1);
    }
  }

  lemma NothingCollected(groups: seq<seq<byte>>)
    ensures Collected(groups, []) == groups
  {
  }

  lemma ExtendNone(data: seq<byte>)
    ensures Extend([], data) == []
  {
  }

  /** Conservation: over any continuity-correct run with in-bounds payloads, and headers that
      parse on start packets, the bytes of each begin_packet and its continue_packets are
      exactly the payloads from that start packet up to the next, joined; packets before the
      first start packet contribute nothing. */
  lemma PayloadsConserved(ps: seq<Packet>)
    requires Continuous(ps) && StartsParse(ps) && forall p :: p in ps ==> PayloadOf(p).Ok?
    ensures Collected([], Run(NewFilter, ps).1) == Grouped([], ps)
  {
    hide Step, StartParses, UnitStart, PayloadOf, Continues, Counter;
    CollectedFrom(NewFilter, ps, []);
  }

  /** Of the packets after one with counter `before`: the payloads, joined, up to the next
      start packet or the next discontinuity. */
  function Continuation(before: nat, ps: seq<Packet>): seq<byte>
    decreases |ps|
  {
    if ps == [] || UnitStart(ps[0]) || !Continues(before, ps[0]) then []
    else PayloadBytes(ps[0]) + Continuation(Counter(ps[0]), ps[1..])
  }

  /** Every start packet with its continuation. */
  function Sent(ps: seq<Packet>): seq<seq<byte>> {
    if ps == [] then []
    else (if UnitStart(ps[0]) then [PayloadBytes(ps[0]) + Continuation(Counter(ps[0]), ps[1..])] else []) + Sent(ps[1..])
  }

  /** What is to be collected from the rest of a run, given what was collected before. */
  function ToCollect(f: Filter, ps: seq<Packet>, groups: seq<seq<byte>>): seq<seq<byte>> {
    (if f.state == Started && f.counter.Some? then Extend(groups, Continuation(f.counter.value, ps)) else groups) + Sent(ps)
  }

  /** What one packet has collected, whatever was lost before it. */
  lemma StepCollects(f: Filter, p: Packet, groups: seq<seq<byte>>)
    requires UnitStart(p) ==> StartParses(p)
    ensures Collected(groups, Step(f, p).1)
         == if UnitStart(p) then groups + [PayloadBytes(p)]
            else if f.state == Started && IsContinuous(f.counter, p) then Extend(groups, PayloadBytes(p))
            else groups
  {
    hide HasPayload, Counter, UnitStart, PayloadOf, HeaderParses, IsContinuous, Extend;
    var continuous := IsContinuous(f.counter, p);
    var state := if continuous then f.state else IgnoreRest;
    var lost := if continuous then [] else [ContinuityError];
    var rest := if UnitStart(p) then StartEvents(state, PayloadOf(p)) else MoreEvents(state, PayloadOf(p));
    assert Step(f, p).1 == lost + rest;
    CollectedConcat(groups, lost, rest);
    assert Collected(groups, lost) == groups;
    if UnitStart(p) {
      var before := match state case Started => [EndPacket] case Begin => [StartStream] case IgnoreRest => [];
      var begin := BeginPacket(PayloadBytes(p));
      assert rest == before + [begin];
      CollectedConcat(groups, before, [begin]);
      assert Collected(groups, before) == groups;
      assert Collected(groups, [begin]) == groups + [PayloadBytes(p)];
    } else {
      ExtendNothing(groups);
      OneCollected(groups, rest);
    }
  }

  lemma OneCollected(groups: seq<seq<byte>>, events: seq<Event>)
    requires |events| <= 1
    ensures Collected(groups, events)
         == if events == [] then groups
            else if events[0].BeginPacket? then groups + [events[0].header]
            else if events[0].ContinuePacket? then Extend(groups, events[0].data)
            else groups
  {
    hide Extend;
    if events != [] {
      assert events[1..] == [];
    }
  }

  lemma ExtendTwice(groups: seq<seq<byte>>, a: seq<byte>, b: seq<byte>)
    ensures Extend(Extend(groups, a), b) == Extend(groups, a + b)
  {
    if groups != [] {
      var last := groups[|groups| - 1];
      var once := Extend(groups, a);
      assert once[..|once| - 1] == groups[..|groups| - 1] && once[|once| - 1] == last + a;
      assert (last + a) + b == last + (a + b);
    }
  }

  lemma ExtendLast(groups: seq<seq<byte>>, a: seq<byte>, b: seq<byte>)
    ensures Extend(groups + [a], b) == groups + [a + b]
  {
    assert (groups + [a])[..|groups|] == groups;
  }

  lemma ToCollectStep(f: Filter, ps: seq<Packet>, groups: seq<seq<byte>>)
    requires ps != [] && (f.state == Started ==> f.counter.Some?)
    ensures var p, first := ps[0], Step(f, ps[0]);
            var now := if UnitStart(p) then groups + [PayloadBytes(p)]
                       else if f.state == Started && IsContinuous(f.counter, p) then Extend(groups, PayloadBytes(p))
                       else groups;
            ToCollect(f, ps, groups) == ToCollect(first.0, ps[1..], now)
  {
    hide UnitStart, PayloadBytes, Continues, Counter, Extend, HasPayload, StartEvents, MoreEvents;
    var p, rest := ps[0], ps[1..];
    var tail := Continuation(Counter(p), rest);
    if UnitStart(p) {
      ExtendLast(groups, PayloadBytes(p), tail);
      ExtendNothing(groups);
      assert (groups + [PayloadBytes(p) + tail]) + Sent(rest) == groups + ([PayloadBytes(p) + tail] + Sent(rest));
    } else {
      ExtendTwice(groups, PayloadBytes(p), tail);
      ExtendNothing(groups);
      assert [] + Sent(rest) == Sent(rest);
    }
  }

  lemma {:induction false} CollectedAnyway(f: Filter, ps: seq<Packet>, groups: seq<seq<byte>>)
    requires StartsParse(ps) && (f.state == Started ==> f.counter.Some?)
    ensures Collected(groups, Run(f, ps).1) == ToCollect(f, ps, groups)
    decreases |ps|
  {
    hide StartParses, UnitStart, PayloadBytes, Continues, Counter, Extend, IsContinuous, StartEvents, MoreEvents, Collected;
    if ps == [] {
      NothingCollected(groups);
      ExtendNothing(groups);
      assert groups + [] == groups;
    } else {
      var p, rest := ps[0], ps[1..];
      assert p in ps && StartsParse(rest);
      var first := Step(f, p);
      StepCollects(f, p, groups);
      ToCollectStep(f, ps, groups);
      CollectedAnyway(first.0, rest, Collected(groups, first.1));
      CollectedConcat(groups, first.1, Run(first.0, rest).1);
    }
  }

  /** Conservation under loss: over every run whose start packets' headers parse, whatever was
      lost, each collected packet is exactly the payloads from its start packet up to the next
      start packet or discontinuity, joined, and every start packet begins one. */
  lemma PayloadsConservedAnyway(ps: seq<Packet>)
    requires StartsParse(ps)
    ensures Collected([], Run(NewFilter, ps).1) == Sent(ps)
  {
    hide Step, StartParses, UnitStart, Continuation, Collected, Sent;
    CollectedAnyway(NewFilter, ps, []);
    assert [] + Sent(ps) == Sent(ps);
  }

  // ----- PES packets, from their bytes -----

  /** One PES packet, cut into the payloads that carry it. */
  ghost predicate ValidCuts(cuts: seq<seq<byte>>) {
    cuts != [] && |cuts[0]| >= 6 && Fitting(cuts)
  }

  /** A PES packet as written: start code, stream id, length, and the rest. */
  function PesBytes(streamId: byte, length: nat, rest: seq<byte>): seq<byte>
    requires length < 65536
  {
    [0, 0, 1, streamId, ByteOf(length / 256), ByteOf(length % 256)] + rest
  }

  /** The packet for one payload. */
  function CutPacket(cut: seq<byte>, start: bool, pid: Pid, counter: nat): Packet
    requires 1 <= |cut| <= 184
  {
    Carry(if start then 0x40 | ByteOf(pid / 256) else ByteOf(pid / 256), ByteOf(pid % 256), ByteOf(counter % 16), cut)
  }

  predicate Fitting(cuts: seq<seq<byte>>) {
    forall c :: c in cuts ==> 1 <= |c| <= 184
  }

  /** The packets for some payloads of which the first begins a PES packet if `start`, with
      counters from `counter` on. */
  function Carried(cuts: seq<seq<byte>>, start: bool, pid: Pid, counter: nat): (ps: seq<Packet>)
    requires Fitting(cuts)
    ensures |ps| == |cuts|
    decreases |cuts|
  {
    if cuts == [] then []
    else
      FittingParts(cuts);
      [CutPacket(cuts[0], start, pid, counter)] + Carried(cuts[1..], false, pid, counter + 1)
  }

  lemma FittingParts(cuts: seq<seq<byte>>)
    requires Fitting(cuts) && cuts != []
    ensures 1 <= |cuts[0]| <= 184 && Fitting(cuts[1..])
  {
    assert cuts[0] in cuts;
  }

  /** The packets for a series of PES packets. */
  function CarriedAll(groups: seq<seq<seq<byte>>>, pid: Pid, counter: nat): seq<Packet>
    requires forall g :: g in groups ==> ValidCuts(g)
    decreases |groups|
  {
    if groups == [] then []
    else
      assert ValidCuts(groups[0]);
      Carried(groups[0], true, pid, counter) + CarriedAll(groups[1..], pid, counter + |groups[0]|)
  }

  lemma StartFlag(hi: byte)
    requires hi < 32
    ensures (0x40 | hi) & 0x40 != 0 && hi & 0x40 == 0
  {
  }

  lemma HighOf(pid: Pid)
    ensures ByteOf(pid / 256) < 32
  {
    SmallHigh(ByteOf(pid / 256));
  }

  lemma SmallHigh(b: byte)
    requires b as nat < 32
    ensures b < 32
  {
  }

  /** What each of these packets is. */
  lemma CutRead(cut: seq<byte>, start: bool, pid: Pid, counter: nat)
    requires 1 <= |cut| <= 184
    ensures var p := CutPacket(cut, start, pid, counter);
            && (UnitStart(p) <==> start) && PayloadOf(p) == Ok(Some(cut)) && Counter(p) == counter % 16
  {
    hide Carry, ByteOf, UnitStart, PayloadOf, Counter, PidOf, TransportError, Scrambled, Pid13;
    var high := ByteOf(pid / 256);
    HighOf(pid);
    StartFlag(high);
    LowNibble(ByteOf(counter % 16));
    CarryRoundTrip(if start then 0x40 | high else high, ByteOf(pid % 256), ByteOf(counter % 16), cut);
  }

  lemma CutCarries(cut: seq<byte>, start: bool, pid: Pid, counter: nat)
    requires 1 <= |cut| <= 184
    ensures var p := CutPacket(cut, start, pid, counter);
            HasPayload(p) && PayloadBytes(p) == cut && Continues((counter + 15) % 16, p) && Counter(p) == (counter + 1 + 15) % 16
  {
    hide CutPacket, HasPayload, Counter;
    CutRead(cut, start, pid, counter);
    Around16(counter);
  }

  lemma SentCons(p: Packet, rest: seq<Packet>)
    ensures !UnitStart(p) ==> Sent([p] + rest) == Sent(rest)
    ensures UnitStart(p) ==> Sent([p] + rest) == [PayloadBytes(p) + Continuation(Counter(p), rest)] + Sent(rest)
  {
    hide UnitStart, PayloadBytes, Continuation, Counter;
    assert ([p] + rest)[1..] == rest;
    assert [] + Sent(rest) == Sent(rest);
  }

  lemma ContinuationCons(before: nat, p: Packet, rest: seq<Packet>)
    requires !UnitStart(p) && Continues(before, p)
    ensures Continuation(before, [p] + rest) == PayloadBytes(p) + Continuation(Counter(p), rest)
  {
    hide UnitStart, PayloadBytes, Continues, Counter;
    assert ([p] + rest)[1..] == rest;
  }

  lemma ContinuationEnds(before: nat, more: seq<Packet>)
    requires more != [] ==> UnitStart(more[0])
    ensures Continuation(before, more) == []
  {
    hide UnitStart, PayloadBytes, Continues, Counter;
  }

  /** Following packets follow: their counters go on, and only the first begins a PES packet. */
  lemma {:induction false} CarriedSent(cuts: seq<seq<byte>>, pid: Pid, counter: nat, more: seq<Packet>)
    requires Fitting(cuts)
    requires more != [] ==> UnitStart(more[0])
    ensures Continuation((counter + 15) % 16, Carried(cuts, false, pid, counter) + more) == Concat(cuts)
    ensures Sent(Carried(cuts, false, pid, counter) + more) == Sent(more)
    decreases |cuts|
  {
    hide UnitStart, PayloadBytes, HasPayload, Counter, CutPacket, Sent, Continuation, Continues, Fitting;
    var ps := Carried(cuts, false, pid, counter);
    if cuts == [] {
      assert ps + more == more;
      ContinuationEnds((counter + 15) % 16, more);
    } else {
      FittingParts(cuts);
      var p, rest := CutPacket(cuts[0], false, pid, counter), Carried(cuts[1..], false, pid, counter + 1) + more;
      CutRead(cuts[0], false, pid, counter);
      CutCarries(cuts[0], false, pid, counter);
      assert ps + more == [p] + rest;
      CarriedSent(cuts[1..], pid, counter + 1, more);
      ContinuationCons((counter + 15) % 16, p, rest);
      SentCons(p, rest);
    }
  }

  lemma Around16(counter: nat)
    ensures ((counter + 15) % 16 + 1) % 16 == counter % 16 && (counter + 1 + 15) % 16 == counter % 16
  {
  }

  lemma GroupSent(g: seq<seq<byte>>, pid: Pid, counter: nat, more: seq<Packet>)
    requires ValidCuts(g) && (more != [] ==> UnitStart(more[0]))
    ensures var ps := Carried(g, true, pid, counter);
            UnitStart((ps + more)[0]) && Sent(ps + more) == [Concat(g)] + Sent(more)
  {
    hide UnitStart, PayloadBytes, HasPayload, Counter, CutPacket, Continuation, Sent, Continues, Fitting;
    FittingParts(g);
    var p, rest := CutPacket(g[0], true, pid, counter), Carried(g[1..], false, pid, counter + 1) + more;
    CutRead(g[0], true, pid, counter);
    CutCarries(g[0], true, pid, counter);
    CarriedSent(g[1..], pid, counter + 1, more);
    assert Carried(g, true, pid, counter) + more == [p] + rest;
    SentCons(p, rest);
  }

  lemma {:induction false} CarriedAllSent(groups: seq<seq<seq<byte>>>, pid: Pid, counter: nat)
    requires forall g :: g in groups ==> ValidCuts(g)
    ensures var ps := CarriedAll(groups, pid, counter);
            && (ps != [] ==> UnitStart(ps[0]))
            && |Sent(ps)| == |groups|
            && forall i :: 0 <= i < |groups| ==> Sent(ps)[i] == Concat(groups[i])
    decreases |groups|
  {
    hide UnitStart, Carried, Sent, ValidCuts;
    if groups == [] {
      NothingSent();
    } else {
      var g, rest := groups[0], CarriedAll(groups[1..], pid, counter + |groups[0]|);
      assert ValidCuts(g);
      CarriedAllSent(groups[1..], pid, counter + |g|);
      GroupSent(g, pid, counter, rest);
    }
  }

  lemma NothingSent()
    ensures Sent([]) == []
  {
  }

  lemma {:induction false} CarriedPlain(cuts: seq<seq<byte>>, pid: Pid, counter: nat)
    requires Fitting(cuts)
    ensures forall p :: p in Carried(cuts, false, pid, counter) ==> !UnitStart(p)
    decreases |cuts|
  {
    hide UnitStart, CutPacket, Fitting;
    if cuts != [] {
      FittingParts(cuts);
      CutRead(cuts[0], false, pid, counter);
      CarriedPlain(cuts[1..], pid, counter + 1);
    }
  }

  lemma GroupParses(g: seq<seq<byte>>, pid: Pid, counter: nat)
    requires ValidCuts(g) && g[0][0] == 0 && g[0][1] == 0 && g[0][2] == 1
    ensures StartsParse(Carried(g, true, pid, counter))
  {
    hide UnitStart, PayloadOf, CutPacket, Fitting;
    FittingParts(g);
    var p, rest := CutPacket(g[0], true, pid, counter), Carried(g[1..], false, pid, counter + 1);
    CutRead(g[0], true, pid, counter);
    CarriedPlain(g[1..], pid, counter + 1);
    assert StartParses(p);
    assert forall q :: q in [p] + rest ==> q == p || q in rest;
  }

  lemma {:induction false} CarriedAllParse(groups: seq<seq<seq<byte>>>, pid: Pid, counter: nat)
    requires forall g :: g in groups ==> ValidCuts(g) && g[0][0] == 0 && g[0][1] == 0 && g[0][2] == 1
    ensures StartsParse(CarriedAll(groups, pid, counter))
    decreases |groups|
  {
    hide UnitStart, StartParses, Carried;
    if groups != [] {
      var g := groups[0];
      assert ValidCuts(g) && g in groups;
      CarriedAllParse(groups[1..], pid, counter + |g|);
      GroupParses(g, pid, counter);
    }
  }

  /** The round trip: any PES packets, written from their start code on and cut in any way that
      leaves the fixed header whole, are collected by a new filter as exactly those packets. */
  lemma PesRoundTrip(ids: seq<byte>, lengths: seq<nat>, rests: seq<seq<byte>>, groups: seq<seq<seq<byte>>>, pid: Pid, counter: nat)
    requires |ids| == |lengths| == |rests| == |groups| && forall i :: 0 <= i < |ids| ==> lengths[i] < 65536
    requires forall g :: g in groups ==> ValidCuts(g)
    requires forall i :: 0 <= i < |groups| ==> Concat(groups[i]) == PesBytes(ids[i], lengths[i], rests[i])
    ensures var collected := Collected([], Run(NewFilter, CarriedAll(groups, pid, counter)).1);
            && |collected| == |groups|
            && forall i :: 0 <= i < |groups| ==> collected[i] == PesBytes(ids[i], lengths[i], rests[i])
  {
    hide Sent, Run, Collected, CarriedAll, StartsParse;
    forall g | g in groups
      ensures g[0][0] == 0 && g[0][1] == 0 && g[0][2] == 1
    {
      var i :| 0 <= i < |groups| && groups[i] == g;
      assert Concat(g) == g[0] + Concat(g[1..]);
      assert g[0][0] == Concat(g)[0] && g[0][1] == Concat(g)[1] && g[0][2] == Concat(g)[2];
    }
    CarriedAllParse(groups, pid, counter);
    CarriedAllSent(groups, pid, counter);
    PayloadsConservedAnyway(CarriedAll(groups, pid, counter));
  }

  // ----- loss -----

  /** How many packets of a list carry a payload. */
  function Payloads(ps: seq<Packet>): nat {
    if ps == [] then 0 else (if HasPayload(ps[0]) then 1 else 0) + Payloads(ps[1..])
  }

  /** The counter advances by one for every payload. */
  lemma {:induction false} CounterAdvances(before: nat, ps: seq<Packet>)
    requires before < 16
    requires ps != [] ==> Continues(before, ps[0])
    requires Continuous(ps)
    ensures ps != [] ==> Counter(ps[|ps| - 1]) == (before + Payloads(ps)) % 16
    decreases |ps|
  {
    hide HasPayload, Counter;
    if ps != [] {
      ContinuousRest(ps);
      CounterAdvances(Counter(ps[0]), ps[1..]);
      Wrap(before, if HasPayload(ps[0]) then 1 else 0, Payloads(ps[1..]));
      if |ps| > 1 {
        assert ps[|ps| - 1] == ps[1..][|ps| - 2];
      } else {
        assert Payloads(ps[1..]) == 0;
      }
    }
  }

  lemma Wrap(a: nat, b: nat, c: nat)
    ensures ((a + b) % 16 + c) % 16 == (a + b + c) % 16
  {
  }

  lemma {:induction false} RunCounter(f: Filter, ps: seq<Packet>)
    requires ps != []
    ensures Run(f, ps).0.counter == Some(Counter(ps[|ps| - 1]))
    decreases |ps|
  {
    hide HasPayload, Counter, UnitStart, PayloadOf;
    if |ps| > 1 {
      RunCounter(Step(f, ps[0]).0, ps[1..]);
      assert ps[|ps| - 1] == ps[1..][|ps| - 2];
    }
  }

  lemma ContinuousParts(a: seq<Packet>, b: seq<Packet>)
    requires Continuous(a + b)
    ensures Continuous(a) && Continuous(b)
    ensures a != [] && b != [] ==> Continues(Counter(a[|a| - 1]), b[0])
  {
    hide Continues, Counter;
    var ab := a + b;
    forall i | 0 < i < |a|
      ensures Continues(Counter(a[i - 1]), a[i])
    {
      assert ab[i] == a[i] && ab[i - 1] == a[i - 1];
    }
    forall i | 0 < i < |b|
      ensures Continues(Counter(b[i - 1]), b[i])
    {
      assert ab[|a| + i] == b[i] && ab[|a| + i - 1] == b[i - 1];
    }
    if a != [] && b != [] {
      assert ab[|a|] == b[0] && ab[|a| - 1] == a[|a| - 1];
    }
  }

  lemma StepReports(f: Filter, p: Packet)
    ensures ContinuityError in Step(f, p).1 <==> !IsContinuous(f.counter, p)
  {
  }

  /** Counters are congruent modulo 16 exactly when a multiple of 16 was skipped. */
  lemma Skipped(c: nat, n: nat)
    requires c < 16
    ensures (c + n) % 16 == c <==> n % 16 == 0
    ensures ((c + n) % 16 + 1) % 16 == (c + 1) % 16 <==> n % 16 == 0
  {
  }

  lemma NextAfterLoss(c: nat, n: nat, next: Packet)
    requires c < 16 && Continues((c + n) % 16, next)
    ensures Continues(c, next) <==> n % 16 == 0
  {
    hide HasPayload, Counter;
    Skipped(c, n);
  }

  /** Loss detection: from the interior of a continuity-correct stream some packets go missing,
      `lost`, of which some carry payloads. The packet after them raises a continuity_error
      exactly when the number of payloads lost is no multiple of 16. */
  lemma LossDetected(f: Filter, before: seq<Packet>, lost: seq<Packet>, next: Packet)
    requires before != [] && Continuous(before + lost + [next])
    ensures ContinuityError in Step(Run(f, before).0, next).1 <==> Payloads(lost) % 16 != 0
  {
    hide HasPayload, Step, Run, Continuous, Continues, Payloads, Counter;
    var last := Counter(before[|before| - 1]);
    RunCounter(f, before);
    StepReports(Run(f, before).0, next);
    ContinuousParts(before + lost, [next]);
    ContinuousParts(before, lost);
    CounterAdvances(last, lost);
    if lost == [] {
      assert before + lost == before;
      NoPayloads();
    } else {
      assert (before + lost)[|before + lost| - 1] == lost[|lost| - 1];
    }
    NextAfterLoss(last, Payloads(lost), next);
  }

  lemma NoPayloads()
    ensures Payloads([]) == 0
  {
  }
}
