/** Where `consume` is not what one might expect: the state after a refused section of no
    length, and the bytes before the pointer. */
module PrePointer {
  import opened Bytes
  import opened Packets
  import opened Crc
  import opened Sections
  import opened Framers
  import opened Demultiplexer
  import opened Packetiser
  import opened Processors

  // ----- what one slice tells -----

  /** Events that only reading sections can cause. */
  predicate OfSections(events: seq<Event>) {
    forall e :: e in events ==> !e.Reset? && (e.Problem? ==> e.error != ExtraDataAfterSectionComplete)
  }

  lemma StepOfSections(mode: Mode, s: Scan, b: byte)
    requires WellFormed(mode, s)
    ensures OfSections(Step(mode, s, b).1)
  {
    hide ParseHeader;
  }

  lemma {:induction false} RunOfSections(mode: Mode, s: Scan, bytes: seq<byte>)
    requires WellFormed(mode, s)
    ensures OfSections(Run(mode, s, bytes).1)
    decreases |bytes|
  {
    hide Step, WellFormed;
    if bytes != [] {
      StepOfSections(mode, s, bytes[0]);
      RunOfSections(mode, Step(mode, s, bytes[0]).0, bytes[1..]);
    }
  }

  /** Between sections, only stuffing tells nothing and leaves nothing. */
  lemma SilentOnlyIfStuffing(mode: Mode, bytes: seq<byte>)
    requires bytes != []
    ensures Feed(mode, Idle, bytes) == (Idle, []) <==> bytes[0] == STUFFING_BYTE
  {
    hide Step, Run, Verdict, ParseHeader;
    if bytes[0] == STUFFING_BYTE {
      RunStuffing(mode, bytes);
    } else if |bytes| < HEADER_SIZE {
      RunShortHeader(mode, bytes);
    } else if Verdict(mode, ParseHeader(bytes[..HEADER_SIZE])).Some? {
      RunRejected(mode, bytes);
    } else {
      RunAccepted(mode, bytes);
    }
  }

  // ----- a refused section of no length -----

  /** The framer that is to ignore no bytes, and the one that is idle. */
  const IgnoringNone := Link(Ignoring(0), true)

  const Waiting := Link(Idle, true)

  /** Both come of the same refused section of no length: the first if its header was split
      between two packets, the second if not. The events are the same. */
  lemma SplitReaches(mode: Mode, h: seq<byte>, k: nat)
    requires WholeSection(h) && RefusedEmpty(mode, h) && 0 < k < HEADER_SIZE
    ensures ConsumeUnits(mode, Fresh, [Unit(true, [0] + h[..k]), Unit(false, h[k..])]) == (IgnoringNone, [Told(mode, h)])
    ensures ConsumeUnits(mode, Fresh, [Unit(true, [0] + h)]) == (Waiting, [Told(mode, h)])
  {
    hide Feed, Verdict, ParseHeader, Consume, WholeSection, RefusedEmpty, Told;
    WholeIsLong(h);
    var head, rest := Unit(true, [0] + h[..k]), Unit(false, h[k..]);
    var half := Consume(mode, Fresh, true, Ok(Some(head.data)));
    HeaderHalves(mode, h, k);
    FromFresh(mode, h[..k]);
    ContinueFrom(mode, Collecting(h[..k], HEADER_SIZE), h[k..]);
    OneUnit(mode, half.0, rest);
    assert [head, rest][1..] == [rest];
    assert [] + [Told(mode, h)] == [Told(mode, h)];
    FromFresh(mode, h);
    OneUnit(mode, Fresh, Unit(true, [0] + h));
  }

  lemma OneUnit(mode: Mode, l: Link, u: Unit)
    requires Ready(mode, l)
    ensures ConsumeUnits(mode, l, [u]) == Consume(mode, l, u.start, Ok(Some(u.data)))
  {
    hide Consume;
    var r := Consume(mode, l, u.start, Ok(Some(u.data)));
    assert [u][1..] == [] && ConsumeUnits(mode, r.0, []) == (r.0, []) && r.1 + [] == r.1;
  }

  lemma HeaderHalves(mode: Mode, h: seq<byte>, k: nat)
    requires WholeSection(h) && RefusedEmpty(mode, h) && 0 < k < HEADER_SIZE
    ensures Settled(mode, Collecting(h[..k], HEADER_SIZE))
    ensures Feed(mode, Idle, h[..k]) == (Collecting(h[..k], HEADER_SIZE), [])
    ensures Feed(mode, Collecting(h[..k], HEADER_SIZE), h[k..]) == (Ignoring(0), [Told(mode, h)])
    ensures Feed(mode, Idle, h) == (Idle, [Told(mode, h)])
  {
    hide Step, Run, Verdict, ParseHeader;
    BeginSection(mode, h, k);
    PartialSettled(mode, h, k);
    RunFilled(mode, h[..k], HEADER_SIZE, h[k..]);
    assert h[..k] + h[k..][..HEADER_SIZE - k] == h && h[k..][HEADER_SIZE - k..] == [];
    RunEmpty(mode, Ignoring(0));
    assert h[..HEADER_SIZE] == h;
    RunRejected(mode, h);
    assert h[HEADER_SIZE..] == [];
    RunEmpty(mode, Idle);
    assert [Told(mode, h)] + [] == [Told(mode, h)];
  }

  lemma ContinueFrom(mode: Mode, s: Scan, bytes: seq<byte>)
    requires Settled(mode, s) && s != Idle
    ensures var r := Feed(mode, s, bytes); Consume(mode, Link(s, true), false, Ok(Some(bytes))) == (Link(r.0, true), r.1)
  {
    hide Feed;
  }

  /** A new framer, at a start packet with its pointer at 0. */
  lemma FromFresh(mode: Mode, body: seq<byte>)
    ensures var r := Feed(mode, Idle, body); Consume(mode, Fresh, true, Ok(Some([0] + body))) == (Link(r.0, true), r.1)
  {
    hide Feed;
    assert ([0] + body)[1..] == body && body[..0] == [] && body[0..] == body;
    var r := Feed(mode, Idle, body);
    assert [] + [] + r.1 == r.1;
  }

  /** There are such sections: this one is too short for the section syntax. */
  lemma SplitReached()
    ensures WholeSection([0x40, 0xb0, 0x00]) && RefusedEmpty(SectionSyntax, [0x40, 0xb0, 0x00])
    ensures ConsumeUnits(SectionSyntax, Fresh, [Unit(true, [0, 0x40, 0xb0]), Unit(false, [0x00])]).0 == IgnoringNone
  {
    hide ConsumeUnits;
    var h: seq<byte> := [0x40, 0xb0, 0x00];
    assert h[..HEADER_SIZE] == h;
    SplitReaches(SectionSyntax, h, 2);
    assert [0] + h[..2] == [0, 0x40, 0xb0] && h[2..] == [0x00];
  }

  /** The packets that do not tell the two apart. */
  predicate NotToldApart(unitStart: bool, payload: Payload) {
    || payload.Err?
    || payload.value.None?
    || (unitStart &&
         var bytes := payload.value.value;
         || bytes == []
         || bytes[0] as nat > |bytes| - 1
         || (bytes[0] as nat > 0 && bytes[1] == STUFFING_BYTE))
  }

  lemma ContinuationsDiffer(mode: Mode, bytes: seq<byte>)
    ensures ContinuePayload(mode, IgnoringNone, bytes).1 != ContinuePayload(mode, Waiting, bytes).1
  {
    hide Run;
    var problem := Problem(ExtraDataAfterSectionComplete);
    if bytes == [] {
      RunEmpty(mode, Ignoring(0));
    } else {
      RunOfSections(mode, Ignoring(0), bytes);
      assert problem in ContinuePayload(mode, Waiting, bytes).1;
      assert problem !in Run(mode, Ignoring(0), bytes).1;
    }
  }

  /** Ignoring no bytes before the pointer is reading them as sections. */
  lemma NoneIgnored(mode: Mode, bytes: seq<byte>)
    requires bytes != []
    ensures Feed(mode, Ignoring(0), bytes) == Feed(mode, Idle, bytes)
  {
    hide Run;
    RunIgnoring(mode, 0, bytes);
  }

  lemma StartsDiffer(mode: Mode, stray: seq<byte>, body: seq<byte>)
    requires |stray| < 256
    ensures var payload := [ByteOf(|stray|)] + (stray + body);
            var told := Feed(mode, Idle, body);
            && StartPayload(mode, Waiting, payload) == (Link(told.0, true), told.1)
            && StartPayload(mode, IgnoringNone, payload) == (Link(told.0, true), Closing(mode, IgnoringNone, stray) + told.1)
            && (Closing(mode, IgnoringNone, stray) == [] <==> stray != [] && stray[0] == STUFFING_BYTE)
            && (stray == [] ==> Closing(mode, IgnoringNone, stray) == [Problem(ExtraDataAfterSectionComplete), Reset])
  {
    hide Feed, StartPayload, ByteOf;
    StartEvents(mode, Waiting, stray, body);
    StartEvents(mode, IgnoringNone, stray, body);
    IgnoringCloses(mode, stray);
    assert Closing(mode, Waiting, stray) == [];
    SameWithout([], Feed(mode, Idle, body).1);
  }

  lemma IgnoringCloses(mode: Mode, stray: seq<byte>)
    ensures Closing(mode, IgnoringNone, stray) == [] <==> stray != [] && stray[0] == STUFFING_BYTE
    ensures stray == [] ==> Closing(mode, IgnoringNone, stray) == [Problem(ExtraDataAfterSectionComplete), Reset]
  {
    hide Feed;
    if stray != [] {
      NoneIgnored(mode, stray);
      SilentOnlyIfStuffing(mode, stray);
    }
  }

  /** Which packets tell the framer that is to ignore no bytes from the idle one: every
      continuation, which one reads and the other refuses; and every start packet with its
      pointer in bounds, unless bytes come before the pointer and the first of them is
      stuffing. No other packet does. */
  lemma ToldApartExactly(mode: Mode, unitStart: bool, payload: Payload)
    ensures Consume(mode, IgnoringNone, unitStart, payload).1 == Consume(mode, Waiting, unitStart, payload).1
       <==> NotToldApart(unitStart, payload)
  {
    if payload.Ok? && payload.value.Some? {
      hide StartPayload, ContinuePayload;
      var bytes := payload.value.value;
      if !unitStart {
        ContinuationsDiffer(mode, bytes);
      } else {
        StartsToldApart(mode, bytes);
      }
    }
  }

  lemma StartsToldApart(mode: Mode, bytes: seq<byte>)
    ensures StartPayload(mode, IgnoringNone, bytes).1 == StartPayload(mode, Waiting, bytes).1
       <==> NotToldApart(true, Ok(Some(bytes)))
  {
    if bytes != [] && bytes[0] as nat <= |bytes| - 1 {
      hide *;
      var stray, body := bytes[1..][..bytes[0] as nat], bytes[1..][bytes[0] as nat..];
      PointerSplits(bytes, stray, body);
      StartsDiffer(mode, stray, body);
      SameWithout(Closing(mode, IgnoringNone, stray), Feed(mode, Idle, body).1);
      InBounds(bytes, stray);
    }
  }

  lemma InBounds(bytes: seq<byte>, stray: seq<byte>)
    requires bytes != [] && bytes[0] as nat <= |bytes| - 1 && stray == bytes[1..][..bytes[0] as nat]
    ensures NotToldApart(true, Ok(Some(bytes))) <==> stray != [] && stray[0] == STUFFING_BYTE
  {
    assert stray != [] ==> stray[0] == bytes[1];
  }

  lemma PointerSplits(bytes: seq<byte>, stray: seq<byte>, body: seq<byte>)
    requires bytes != [] && bytes[0] as nat <= |bytes| - 1
    requires stray == bytes[1..][..bytes[0] as nat] && body == bytes[1..][bytes[0] as nat..]
    ensures |stray| < 256 && bytes == [ByteOf(|stray|)] + (stray + body)
  {
    hide ByteOf;
    ByteOfNat(bytes[0]);
    Rejoined(bytes, bytes[0] as nat);
  }

  lemma Rejoined(bytes: seq<byte>, n: nat)
    requires 1 + n <= |bytes|
    ensures bytes == [bytes[0]] + (bytes[1..][..n] + bytes[1..][n..])
  {
  }

  lemma SameWithout(a: seq<Event>, b: seq<Event>)
    ensures a + b == b <==> a == []
  {
    if a + b == b {
      assert |a + b| == |a| + |b|;
    }
    assert a == [] ==> a + b == b;
  }

  /** What it costs: the error resets the parser, and the reset makes the de-duplicator forget
      its version, so a repeated section, which the idle framer's parser leaves out, is
      examined anew. */
  lemma RepeatedSectionPassesAgain(pid: Pid, s: seq<byte>)
    requires ValidSection(SectionSyntax, s) && CheckCrc(pid, ParseHeader(s[..HEADER_SIZE]), s).Table?
    ensures |s| >= 12
    ensures var anew := StartPayload(SectionSyntax, IgnoringNone, [0] + s).1;
            var idle := StartPayload(SectionSyntax, Waiting, [0] + s).1;
            && AllGood(anew) && AllGood(idle)
            && Relay(pid, Some(Version(s)), idle) == (Some(Version(s)), [])
            && Relay(pid, Some(Version(s)), anew)
               == (Some(Version(s)), [Fault(Framing(pid, ExtraDataAfterSectionComplete)), CheckCrc(pid, ParseHeader(s[..HEADER_SIZE]), s)])
  {
    hide StartPayload, Run, Step, Verdict, ParseHeader, Version, CheckCrc, GoodEvent, Consume;
    CheckedIsLong(pid, s);
    FinishSection(SectionSyntax, s, 0, []);
    RunEmpty(SectionSyntax, Idle);
    assert s[0..] + [] == s && [Delivery(s)] + [] == [Delivery(s)];
    StartsDiffer(SectionSyntax, [], s);
    assert [ByteOf(0)] + ([] + s) == [0] + s;
    StartGood(IgnoringNone, [0] + s);
    StartGood(Waiting, [0] + s);
    var told := Delivery(s);
    RelaySingle(pid, Some(Version(s)), told);
    RelaySingle(pid, None, told);
    RelayReset(pid, Some(Version(s)));
    RelayConcat(pid, Some(Version(s)), [Problem(ExtraDataAfterSectionComplete), Reset], [told]);
    assert StartPayload(SectionSyntax, IgnoringNone, [0] + s).1 == [Problem(ExtraDataAfterSectionComplete), Reset] + [told];
    var fault := Fault(Framing(pid, ExtraDataAfterSectionComplete));
    var checked := CheckCrc(pid, ParseHeader(s[..HEADER_SIZE]), s);
    assert [fault] + [checked] == [fault, checked];
  }

  lemma RelayReset(pid: Pid, last: Option<byte>)
    ensures var events := [Problem(ExtraDataAfterSectionComplete), Reset];
            && AllGood(events)
            && Relay(pid, last, events) == (None, [Fault(Framing(pid, ExtraDataAfterSectionComplete))])
  {
    var problem := Problem(ExtraDataAfterSectionComplete);
    RelaySingle(pid, last, problem);
    RelaySingle(pid, last, Reset);
    RelayConcat(pid, last, [problem], [Reset]);
    assert [problem] + [Reset] == [problem, Reset];
  }

  lemma CheckedIsLong(pid: Pid, s: seq<byte>)
    requires |s| >= HEADER_SIZE && CheckCrc(pid, ParseHeader(s[..HEADER_SIZE]), s).Table?
    ensures |s| >= 12
  {
    hide Sum32;
  }

  lemma StartGood(l: Link, payload: seq<byte>)
    requires Ready(SectionSyntax, l)
    ensures AllGood(StartPayload(SectionSyntax, l, payload).1)
  {
    ConsumeGood(l, true, Ok(Some(payload)));
  }

  // ----- the bytes before the pointer -----

  /** The bytes held and the bytes before the pointer complete the section in progress. */
  predicate Completed(all: seq<byte>) {
    |all| >= HEADER_SIZE && Extent(all) <= |all|
  }

  /** How many bytes the section has. */
  function Extent(all: seq<byte>): (n: nat)
    requires |all| >= HEADER_SIZE
    ensures n >= HEADER_SIZE
  {
    HEADER_SIZE + ParseHeader(all[..HEADER_SIZE]).length
  }

  /** What is told of the section in progress itself. */
  function Ending(mode: Mode, all: seq<byte>): seq<Event> {
    if |all| < HEADER_SIZE then []
    else if Refused(mode, all) then [Problem(Verdict(mode, ParseHeader(all[..HEADER_SIZE])).value)]
    else if Completed(all) then [Delivery(all[..Extent(all)])]
    else []
  }

  /** The state when it is done. */
  function Ended(mode: Mode, all: seq<byte>): Scan
    requires |all| >= HEADER_SIZE
  {
    if Refused(mode, all) && Extent(all) == HEADER_SIZE then Ignoring(0) else Idle
  }

  /** Nothing is told beyond the end of the section in progress exactly if it ends before the
      pointer and then either nothing is left, unless it was refused and had no length, or
      what is left begins with stuffing. */
  predicate Quiet(mode: Mode, all: seq<byte>) {
    && Completed(all)
    && if Extent(all) == |all| then !(Refused(mode, all) && Extent(all) == HEADER_SIZE)
       else all[Extent(all)] == STUFFING_BYTE
  }

  lemma EndsWithin(mode: Mode, buf: seq<byte>, target: nat, stray: seq<byte>)
    requires WellFormed(mode, Collecting(buf, target)) && |buf| >= HEADER_SIZE
    ensures var all := buf + stray; !Refused(mode, all) && Extent(all) == target
  {
    assert (buf + stray)[..HEADER_SIZE] == buf[..HEADER_SIZE];
  }

  /** A header that was split, completed, and what follows it. */
  lemma HeaderThen(mode: Mode, buf: seq<byte>, target: nat, stray: seq<byte>)
    requires WellFormed(mode, Collecting(buf, target)) && |buf| < HEADER_SIZE <= |buf + stray|
    ensures var all := buf + stray;
            var done := Headed(mode, all[..HEADER_SIZE], true);
            && WellFormed(mode, done.0)
            && Run(mode, Collecting(buf, target), stray) == After(done.1, Run(mode, done.0, all[HEADER_SIZE..]))
  {
    hide Step, Run, Headed;
    var take := HEADER_SIZE - |buf|;
    RunFilled(mode, buf, target, stray);
    assert buf + stray[..take] == (buf + stray)[..HEADER_SIZE];
    assert stray[take..] == (buf + stray)[HEADER_SIZE..];
  }

  lemma AcceptedCollects(mode: Mode, all: seq<byte>)
    requires |all| >= HEADER_SIZE && all[0] != STUFFING_BYTE && !Refused(mode, all) && Extent(all) > HEADER_SIZE
    ensures WellFormed(mode, Collecting(all[..HEADER_SIZE], Extent(all)))
  {
    assert all[..HEADER_SIZE][..HEADER_SIZE] == all[..HEADER_SIZE];
  }

  lemma BodyCompleted(mode: Mode, all: seq<byte>)
    requires Completed(all) && all[0] != STUFFING_BYTE
    ensures WellFormed(mode, Ended(mode, all))
    ensures var done := Headed(mode, all[..HEADER_SIZE], true);
            && WellFormed(mode, done.0)
            && After(done.1, Run(mode, done.0, all[HEADER_SIZE..]))
               == After(Ending(mode, all), Run(mode, Ended(mode, all), all[Extent(all)..]))
  {
    hide Step, Run, Verdict, ParseHeader;
    var h, rest, length := all[..HEADER_SIZE], all[HEADER_SIZE..], Extent(all) - HEADER_SIZE;
    assert rest[length..] == all[Extent(all)..];
    if Refused(mode, all) {
      RunIgnoring(mode, length, rest);
    } else if length > 0 {
      assert h[..HEADER_SIZE] == h;
      AcceptedCollects(mode, all);
      RunFilled(mode, h, Extent(all), rest);
      assert h + rest[..length] == all[..Extent(all)];
      assert all[..Extent(all)][..HEADER_SIZE] == h;
    } else {
      assert all[..Extent(all)] == h && h[..HEADER_SIZE] == h;
    }
  }

  /** When the section in progress ends before the pointer, the rest is read like any bytes
      between sections. */
  lemma CompletedRun(mode: Mode, buf: seq<byte>, target: nat, stray: seq<byte>)
    requires WellFormed(mode, Collecting(buf, target)) && Completed(buf + stray)
    ensures var all := buf + stray;
            && WellFormed(mode, Ended(mode, all))
            && Run(mode, Collecting(buf, target), stray)
               == After(Ending(mode, all), Run(mode, Ended(mode, all), all[Extent(all)..]))
  {
    hide Step, Run, Verdict, ParseHeader, Headed, Ending, Extent;
    var all := buf + stray;
    assert all[0] == buf[0];
    if |buf| < HEADER_SIZE {
      HeaderThen(mode, buf, target, stray);
      BodyCompleted(mode, all);
    } else {
      EndsWithin(mode, buf, target, stray);
      CompletedLater(mode, buf, target, stray);
    }
  }

  lemma CompletedLater(mode: Mode, buf: seq<byte>, target: nat, stray: seq<byte>)
    requires WellFormed(mode, Collecting(buf, target)) && |buf| >= HEADER_SIZE && target <= |buf + stray|
    ensures var all := buf + stray;
            && Completed(all)
            && WellFormed(mode, Ended(mode, all))
            && Run(mode, Collecting(buf, target), stray)
               == After(Ending(mode, all), Run(mode, Ended(mode, all), all[Extent(all)..]))
  {
    hide Step, Run, Verdict, ParseHeader;
    var all, take := buf + stray, target - |buf|;
    EndsWithin(mode, buf, target, stray);
    RunFilled(mode, buf, target, stray);
    assert buf + stray[..take] == all[..target] && stray[take..] == all[target..];
    assert all[..target][..HEADER_SIZE] == all[..HEADER_SIZE];
  }

  /** When it does not, only its refusal can have been told, and it is still in progress. */
  lemma UnfinishedRun(mode: Mode, buf: seq<byte>, target: nat, stray: seq<byte>)
    requires WellFormed(mode, Collecting(buf, target)) && !Completed(buf + stray)
    ensures var r := Run(mode, Collecting(buf, target), stray);
            r.1 == Ending(mode, buf + stray) && (r.0.Collecting? || r.0.Ignoring?)
  {
    hide Step, Run, Verdict, ParseHeader;
    var all := buf + stray;
    if |buf| >= HEADER_SIZE {
      EndsWithin(mode, buf, target, stray);
      RunGrowing(mode, buf, target, stray);
    } else if |all| < HEADER_SIZE {
      RunGrowing(mode, buf, target, stray);
    } else {
      HeaderThen(mode, buf, target, stray);
      var h, rest, length := all[..HEADER_SIZE], all[HEADER_SIZE..], Extent(all) - HEADER_SIZE;
      if Refused(mode, all) {
        RunIgnoring(mode, length, rest);
        assert Ending(mode, all) + [] == Ending(mode, all);
      } else {
        RunGrowing(mode, h, Extent(all), rest);
      }
    }
  }

  /** What the bytes before the pointer tell beyond the end of the section in progress. */
  function Beyond(mode: Mode, all: seq<byte>): seq<Event> {
    var lost := [Problem(ExtraDataAfterSectionComplete), Reset];
    if !Completed(all) then lost
    else
      var rest := all[Extent(all)..];
      if rest == [] then if Ended(mode, all) == Idle then [] else lost
      else
        var r := Feed(mode, Idle, rest);
        r.1 + AtPointer(Link(r.0, true)).1
  }

  /** The bytes before the pointer, when a section is in progress: they end it, and then they
      are read as sections of their own. */
  lemma StrayTells(mode: Mode, buf: seq<byte>, target: nat, stray: seq<byte>)
    requires Settled(mode, Collecting(buf, target))
    ensures Closing(mode, Link(Collecting(buf, target), true), stray)
         == Ending(mode, buf + stray) + Beyond(mode, buf + stray)
  {
    hide Step, Run, Verdict, ParseHeader, Extent, Ending, Beyond;
    if Completed(buf + stray) {
      CompletedCloses(mode, buf, target, stray);
    } else {
      hide Feed;
      UnfinishedFeed(mode, buf, target, stray);
      UnfinishedBeyond(mode, buf + stray);
    }
  }

  lemma UnfinishedBeyond(mode: Mode, all: seq<byte>)
    requires !Completed(all)
    ensures Beyond(mode, all) == [Problem(ExtraDataAfterSectionComplete), Reset]
  {
  }

  lemma UnfinishedFeed(mode: Mode, buf: seq<byte>, target: nat, stray: seq<byte>)
    requires Settled(mode, Collecting(buf, target)) && !Completed(buf + stray)
    ensures var r := Feed(mode, Collecting(buf, target), stray);
            r.1 == Ending(mode, buf + stray) && r.0 != Idle
    ensures stray == [] ==> Ending(mode, buf + stray) == []
  {
    hide Step, Run, Verdict, ParseHeader, Extent, Ending;
    UnfinishedRun(mode, buf, target, stray);
    if stray == [] {
      RunEmpty(mode, Collecting(buf, target));
    }
  }

  lemma NotYetCompleted(mode: Mode, buf: seq<byte>, target: nat)
    requires WellFormed(mode, Collecting(buf, target))
    ensures !Completed(buf)
  {
  }

  lemma CompletedFeed(mode: Mode, buf: seq<byte>, target: nat, stray: seq<byte>)
    requires Settled(mode, Collecting(buf, target)) && Completed(buf + stray)
    ensures var all := buf + stray;
            var rest := all[Extent(all)..];
            var r := if rest == [] then (Ended(mode, all), []) else Feed(mode, Idle, rest);
            Feed(mode, Collecting(buf, target), stray) == (r.0, Ending(mode, all) + r.1)
  {
    hide Step, Run, Verdict, ParseHeader, Extent, Ending, Refused;
    var all := buf + stray;
    var rest := all[Extent(all)..];
    CompletedRun(mode, buf, target, stray);
    if rest == [] {
      RunEmpty(mode, Ended(mode, all));
    } else {
      RunIgnoring(mode, 0, rest);
    }
    var q := Run(mode, Ended(mode, all), rest);
    assert Ending(mode, all) == [] ==> Ending(mode, all) + q.1 == q.1;
  }

  lemma CompletedCloses(mode: Mode, buf: seq<byte>, target: nat, stray: seq<byte>)
    requires Settled(mode, Collecting(buf, target)) && Completed(buf + stray)
    ensures Closing(mode, Link(Collecting(buf, target), true), stray)
         == Ending(mode, buf + stray) + Beyond(mode, buf + stray)
  {
    hide Feed, Verdict, ParseHeader, Extent, Ending, Refused;
    var all := buf + stray;
    NotYetCompleted(mode, buf, target);
    assert buf + [] == buf;
    CompletedFeed(mode, buf, target, stray);
    var rest := all[Extent(all)..];
    var ending := Ending(mode, all);
    if rest == [] {
      assert (ending + []) + Beyond(mode, all) == ending + Beyond(mode, all);
    } else {
      var r := Feed(mode, Idle, rest);
      var at := AtPointer(Link(r.0, true)).1;
      assert (ending + r.1) + at == ending + (r.1 + at);
    }
  }

  lemma BeyondExactly(mode: Mode, all: seq<byte>)
    ensures Beyond(mode, all) == [] <==> Quiet(mode, all)
  {
    hide Feed, Verdict, ParseHeader, Extent, Refused;
    if Completed(all) && Extent(all) < |all| {
      var rest := all[Extent(all)..];
      assert rest[0] == all[Extent(all)];
      SilentOnlyIfStuffing(mode, rest);
    }
  }

  /** And exactly when they cause no event but the end of that section. */
  lemma StrayQuietExactly(mode: Mode, buf: seq<byte>, target: nat, stray: seq<byte>)
    requires Settled(mode, Collecting(buf, target))
    ensures Closing(mode, Link(Collecting(buf, target), true), stray) == Ending(mode, buf + stray) <==> Quiet(mode, buf + stray)
  {
    hide *;
    StrayTells(mode, buf, target, stray);
    BeyondExactly(mode, buf + stray);
    SameAlone(Ending(mode, buf + stray), Beyond(mode, buf + stray));
  }

  lemma SameAlone(a: seq<Event>, b: seq<Event>)
    ensures a + b == a <==> b == []
  {
    if a + b == a {
      assert |a + b| == |a| + |b|;
    }
    assert b == [] ==> a + b == a;
  }

  /** The bytes before the pointer, when a refused section is still being skipped: what is left
      after it is read as sections too. */
  lemma SkippingTells(mode: Mode, n: nat, stray: seq<byte>)
    requires 1 <= n <= 4095
    ensures Closing(mode, Link(Ignoring(n), true), stray)
         == if |stray| < n then [Problem(ExtraDataAfterSectionComplete), Reset]
            else if |stray| == n then []
            else var r := Feed(mode, Idle, stray[n..]); r.1 + AtPointer(Link(r.0, true)).1
  {
    hide Step, Run;
    RunIgnoring(mode, n, stray);
    RunEmpty(mode, Idle);
    assert |stray| == n ==> stray[n..] == [];
  }

  /** And exactly when they cause no event: it ends before the pointer, and then nothing is left
      or what is left begins with stuffing. */
  lemma SkippingQuietExactly(mode: Mode, n: nat, stray: seq<byte>)
    requires 1 <= n <= 4095
    ensures Closing(mode, Link(Ignoring(n), true), stray) == []
       <==> n <= |stray| && (n == |stray| || stray[n] == STUFFING_BYTE)
  {
    hide Feed, Closing;
    SkippingTells(mode, n, stray);
    if |stray| > n {
      assert stray[n..][0] == stray[n];
      SilentOnlyIfStuffing(mode, stray[n..]);
    }
  }

  /** So whole sections before the pointer are delivered: here the rest of one and then others,
      ahead of what the packet itself begins. */
  lemma StrayDelivered(mode: Mode, s: seq<byte>, k: nat, more: seq<seq<byte>>, body: seq<byte>)
    requires ValidSection(mode, s) && 0 < k < |s| && AllValid(mode, more)
    requires |s[k..] + Concat(more)| < 256
    ensures Ready(mode, Link(Partial(mode, s, k), true))
    ensures var stray := s[k..] + Concat(more);
            StartPayload(mode, Link(Partial(mode, s, k), true), [ByteOf(|stray|)] + (stray + body)).1
            == [Delivery(s)] + Deliveries(mode, more) + Feed(mode, Idle, body).1
  {
    hide Run, Step, Verdict, ParseHeader, StartPayload, WholeSection, ByteOf;
    var stray, l := s[k..] + Concat(more), Link(Partial(mode, s, k), true);
    WholeIsLong(s);
    PartialSettled(mode, s, k);
    StartEvents(mode, l, stray, body);
    ValidTold(mode, more);
    FinishSection(mode, s, k, Concat(more));
    RunSections(mode, more, []);
    RunEmpty(mode, Idle);
    assert Concat(more) + [] == Concat(more);
    StrayEvents([Delivery(s)], Deliveries(mode, more));
    assert Closing(mode, l, stray) == [Delivery(s)] + Deliveries(mode, more);
  }

  lemma StrayEvents(a: seq<Event>, b: seq<Event>)
    ensures After(a, After(b, (Idle, []))) == (Idle, a + b) && (a + b) + [] == a + b
  {
    assert b + [] == b && (a == [] ==> a + b == b);
  }

  /** For example, in the compact syntax: one byte is missing of a section, and between it and
      the pointer there is a whole section of no length. */
  lemma StrayDeliveredOnce()
    ensures var held: Scan := Collecting([0x40, 0x30, 0x01], 4);
            && Settled(CompactSyntax, held)
            && StartPayload(CompactSyntax, Link(held, true), [4, 0xaa, 0x41, 0x30, 0x00]).1
               == [Delivery([0x40, 0x30, 0x01, 0xaa]), Delivery([0x41, 0x30, 0x00])]
  {
    hide StartPayload, Run;
    var s: seq<byte>, t: seq<byte> := [0x40, 0x30, 0x01, 0xaa], [0x41, 0x30, 0x00];
    assert s[..HEADER_SIZE] == [0x40, 0x30, 0x01] && t[..HEADER_SIZE] == t;
    assert Concat([t]) == t + Concat([]) == t;
    assert s[3..] == [0xaa] && [0xaa] + t == [0xaa, 0x41, 0x30, 0x00];
    StrayDelivered(CompactSyntax, s, 3, [t], []);
    ByteOfNat(4);
    assert [ByteOf(4)] + (([0xaa] + t) + []) == [4, 0xaa, 0x41, 0x30, 0x00];
    assert Partial(CompactSyntax, s, 3) == Collecting([0x40, 0x30, 0x01], 4);
    RunEmpty(CompactSyntax, Idle);
    assert Deliveries(CompactSyntax, [t]) == [Delivery(t)];
    assert [Delivery(s)] + [Delivery(t)] + [] == [Delivery(s), Delivery(t)];
  }

  // ----- exactly which packetisations -----

  /** A refused section of no length is split only if stuffing is behind it or it ends the last
      packet. */
  ghost predicate Harmless(mode: Mode, x: Sender, plan: seq<Chunk>)
    requires LegalPlan(x, plan)
    decreases |plan|
  {
    || plan == []
    || (|plan| == 1 && plan[0].More?)
    || (Mild(mode, x, plan[0]) && Harmless(mode, NextSender(x, plan[0]), plan[1..]))
  }

  /** The events of a plan are all there is to tell. */
  ghost predicate AllTold(mode: Mode, x: Sender, plan: seq<Chunk>, synced: bool)
    requires LegalPlan(x, plan)
  {
    var y, done := Finally(x, plan), Packetiser.Completed(x, plan);
    && SendingAny(x) && SendingAny(y) && AllWhole(done)
    && Ready(mode, LinkFor(mode, x, synced))
    && EarlyFor(mode, x) + ConsumeUnits(mode, LinkFor(mode, x, synced), Packetise(x, plan)).1
       == Tellings(mode, done) + EarlyFor(mode, y)
  }

  lemma AllToldStep(mode: Mode, x: Sender, plan: seq<Chunk>, synced: bool)
    requires SendingAny(x) && plan != [] && LegalPlan(x, plan) && Mild(mode, x, plan[0])
    requires !synced ==> x.sent == 0
    requires AllTold(mode, NextSender(x, plan[0]), plan[1..], true)
    ensures AllTold(mode, x, plan, synced)
  {
    hide Legal, PayloadFor, NextSender, Completes, Tellings, SendingAny, AllWhole, LinkFor, Ready, Consume, EarlyFor, Mild;
    var c, y, rest := plan[0], NextSender(x, plan[0]), plan[1..];
    AnyWithin(x);
    AnyWithin(y);
    ChunkConsumed(mode, x, c, synced);
    TellingsConcat(mode, Completes(x, c), Packetiser.Completed(y, rest));
    assert Packetise(x, plan) == [PayloadFor(x, c)] + Packetise(y, rest);
    assert Packetise(x, plan)[1..] == Packetise(y, rest);
    var first := Consume(mode, LinkFor(mode, x, synced), PayloadFor(x, c).start, Ok(Some(PayloadFor(x, c).data)));
    var more := ConsumeUnits(mode, LinkFor(mode, y, true), Packetise(y, rest));
    Joined(EarlyFor(mode, x), first.1, Tellings(mode, Completes(x, c)), EarlyFor(mode, y), more.1,
           Tellings(mode, Packetiser.Completed(y, rest)), EarlyFor(mode, Finally(y, rest)));
  }

  /** The end of a split refused section of no length, and no stuffing behind it. */
  lemma EndsIgnoring(mode: Mode, x: Sender, c: Chunk)
    requires SendingAny(x) && c.More? && Legal(x, c) && !Mild(mode, x, c)
    ensures |x.current| >= HEADER_SIZE && Ready(mode, LinkFor(mode, x, true))
    ensures var u := PayloadFor(x, c);
            Consume(mode, LinkFor(mode, x, true), u.start, Ok(Some(u.data))) == (IgnoringNone, [Told(mode, x.current)])
    ensures Completes(x, c) == [x.current] && NextSender(x, c) == Sender([], 0, x.todo) && EarlyFor(mode, x) == []
  {
    hide Step, Run, Verdict, ParseHeader, Told;
    var s := x.current;
    LinkReady(mode, x, true);
    FinishRefusedEmpty(mode, s, x.sent, []);
    assert PayloadFor(x, c).data == s[x.sent..] + [];
    RunEmpty(mode, Ignoring(0));
    assert [Told(mode, s)] + [] == [Told(mode, s)];
  }

  lemma LastTold(mode: Mode, x: Sender, plan: seq<Chunk>)
    requires SendingAny(x) && |plan| == 1 && LegalPlan(x, plan) && plan[0].More? && !Mild(mode, x, plan[0])
    ensures AllTold(mode, x, plan, true)
  {
    hide Legal, PayloadFor, NextSender, Completes, Consume, Mild, Told, LinkFor, Ready, EarlyFor, SendingAny, AllWhole;
    var c := plan[0];
    AnyWithin(x);
    EndsIgnoring(mode, x, c);
    OutstandingStep(x, c);
    OneUnit(mode, LinkFor(mode, x, true), PayloadFor(x, c));
    assert plan[1..] == [] && Packetise(x, plan) == [PayloadFor(x, c)];
    assert Packetiser.Completed(x, plan) == [x.current] by {
      assert Completes(x, c) + [] == [x.current];
    }
    NoneEarly(mode, NextSender(x, c));
    var y := NextSender(x, c);
    assert Finally(x, plan) == Finally(y, []) == y;
    assert ConsumeUnits(mode, LinkFor(mode, x, true), Packetise(x, plan)).1 == [Told(mode, x.current)];
    assert [] + [Told(mode, x.current)] == [Told(mode, x.current)] == Tellings(mode, [x.current]);
    assert Tellings(mode, [x.current]) + [] == Tellings(mode, [x.current]);
    assert EarlyFor(mode, x) == [] && EarlyFor(mode, y) == [];
  }

  lemma {:induction false} HarmlessTold(mode: Mode, x: Sender, plan: seq<Chunk>, synced: bool)
    requires SendingAny(x) && LegalPlan(x, plan) && Harmless(mode, x, plan)
    requires !synced ==> x.sent == 0
    ensures AllTold(mode, x, plan, synced)
    decreases |plan|
  {
    if plan == [] {
      PlanHeard(mode, x, plan, synced);
    } else if Mild(mode, x, plan[0]) {
      hide Mild, NextSender, SendingAny, AllTold;
      OutstandingStep(x, plan[0]);
      if |plan| == 1 {
        HarmlessTold(mode, NextSender(x, plan[0]), [], true);
        assert plan[1..] == [];
      } else {
        HarmlessTold(mode, NextSender(x, plan[0]), plan[1..], true);
      }
      AllToldStep(mode, x, plan, synced);
    } else {
      LastTold(mode, x, plan);
    }
  }

  lemma UnitsCons(mode: Mode, l: Link, u: Unit, more: seq<Unit>)
    requires Ready(mode, l)
    ensures var first := Consume(mode, l, u.start, Ok(Some(u.data)));
            ConsumeUnits(mode, l, [u] + more).1 == first.1 + ConsumeUnits(mode, first.0, more).1
  {
    hide Consume;
    assert ([u] + more)[1..] == more;
  }

  /** Ending such a section at the pointer is an error and a reset. */
  lemma StartResets(mode: Mode, x: Sender, c: Chunk)
    requires SendingAny(x) && c.Start? && Legal(x, c) && !Mild(mode, x, c)
    ensures Ready(mode, LinkFor(mode, x, true))
    ensures var u := PayloadFor(x, c); Reset in Consume(mode, LinkFor(mode, x, true), u.start, Ok(Some(u.data))).1
  {
    hide Verdict, ParseHeader, Feed, Closing, Body, StartPayload, Beyond;
    var s := x.current;
    LinkReady(mode, x, true);
    StartEvents(mode, LinkFor(mode, x, true), Pending(x), Body(x, c));
    assert s[..x.sent] + Pending(x) == s;
    assert s[..HEADER_SIZE] == s;
    StrayTells(mode, s[..x.sent], HEADER_SIZE, Pending(x));
    RefusedEmptyBeyond(mode, s);
  }

  lemma RefusedEmptyBeyond(mode: Mode, s: seq<byte>)
    requires WholeSection(s) && RefusedEmpty(mode, s)
    ensures Beyond(mode, s) == [Problem(ExtraDataAfterSectionComplete), Reset]
  {
    hide Verdict, ParseHeader;
    assert s[Extent(s)..] == [];
  }

  /** And so is the next packet, if it ended with a packet. */
  lemma NextResets(mode: Mode, x: Sender, c: Chunk)
    requires x.sent == 0 && Legal(x, c)
    ensures var u := PayloadFor(x, c); Reset in Consume(mode, IgnoringNone, u.start, Ok(Some(u.data))).1
  {
    hide Feed, Closing, Body, StartPayload;
    StartsDiffer(mode, [], Body(x, c));
  }

  lemma {:induction false} HarmResets(mode: Mode, x: Sender, plan: seq<Chunk>, synced: bool)
    requires SendingAny(x) && LegalPlan(x, plan) && !Harmless(mode, x, plan)
    requires !synced ==> x.sent == 0
    ensures Ready(mode, LinkFor(mode, x, synced))
    ensures Reset in ConsumeUnits(mode, LinkFor(mode, x, synced), Packetise(x, plan)).1
    decreases |plan|
  {
    var c := plan[0];
    var y, rest, u := NextSender(x, c), plan[1..], PayloadFor(x, c);
    assert Packetise(x, plan) == [u] + Packetise(y, rest);
    OutstandingStep(x, c);
    LinkReady(mode, x, synced);
    if Mild(mode, x, c) {
      hide Mild, NextSender, SendingAny, PayloadFor, Consume, LinkFor, Legal;
      ChunkConsumed(mode, x, c, synced);
      HarmResets(mode, y, rest, true);
      UnitsCons(mode, LinkFor(mode, x, synced), u, Packetise(y, rest));
    } else {
      assert synced;
      hide NextSender, PayloadFor, Consume, LinkFor;
      UnitsCons(mode, LinkFor(mode, x, true), u, Packetise(y, rest));
      if c.Start? {
        StartResets(mode, x, c);
      } else {
        EndsIgnoring(mode, x, c);
        assert rest != [];
        NextResets(mode, y, rest[0]);
        var v, later := PayloadFor(y, rest[0]), Packetise(NextSender(y, rest[0]), rest[1..]);
        assert Packetise(y, rest) == [v] + later;
        UnitsCons(mode, IgnoringNone, v, later);
      }
    }
  }

  lemma NoResetTold(mode: Mode, ss: seq<seq<byte>>)
    requires AllWhole(ss)
    ensures Reset !in Tellings(mode, ss)
  {
    hide WholeSection, Verdict, ParseHeader;
  }

  /** For which packetisations a new framer tells of every section once and in order, and
      nothing else, when some sections are refused: exactly those that split no refused section
      of no length, except with stuffing behind it or at the very end. */
  lemma DeframeMixedExactly(mode: Mode, sections: seq<seq<byte>>, plan: seq<Chunk>)
    requires AllWhole(sections)
    requires LegalPlan(Sender([], 0, sections), plan) && Outstanding(Finally(Sender([], 0, sections), plan)) == []
    ensures ConsumeUnits(mode, Fresh, Packetise(Sender([], 0, sections), plan)).1 == Tellings(mode, sections)
       <==> Harmless(mode, Sender([], 0, sections), plan)
  {
    hide WholeSection, Consume, Legal, Tellings, ConsumeUnits, Packetise, Finally, Packetiser.Completed, Harmless;
    var x := Sender([], 0, sections);
    PlanOutstanding(x, plan);
    assert Outstanding(x) == sections && Packetiser.Completed(x, plan) + [] == Packetiser.Completed(x, plan);
    if Harmless(mode, x, plan) {
      HarmlessTold(mode, x, plan, false);
      var told := ConsumeUnits(mode, Fresh, Packetise(x, plan)).1;
      assert [] + told == told && Tellings(mode, sections) + [] == Tellings(mode, sections);
    } else {
      HarmResets(mode, x, plan, false);
      NoResetTold(mode, sections);
    }
  }
}
