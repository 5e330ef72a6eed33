/** The sending side of section 2.4.4 of ISO/IEC 13818-1: sections cut into packet payloads
    with pointer fields and stuffing, and what the framer makes of them. */
module Packetiser {
  import opened Bytes
  import opened Sections
  import opened Framers

  /** A section with as many bytes as its header declares, whether the framer accepts it or not. */
  ghost predicate WholeSection(s: seq<byte>) {
    && |s| >= HEADER_SIZE
    && s[0] != STUFFING_BYTE
    && |s| == HEADER_SIZE + ParseHeader(s[..HEADER_SIZE]).length
  }

  predicate Refused(mode: Mode, s: seq<byte>)
    requires |s| >= HEADER_SIZE
  {
    Verdict(mode, ParseHeader(s[..HEADER_SIZE])).Some?
  }

  /** A section that the framer accepts. */
  ghost predicate ValidSection(mode: Mode, s: seq<byte>) {
    WholeSection(s) && !Refused(mode, s)
  }

  ghost predicate AllWhole(ss: seq<seq<byte>>) {
    forall s :: s in ss ==> WholeSection(s)
  }

  ghost predicate AllValid(mode: Mode, ss: seq<seq<byte>>) {
    forall s :: s in ss ==> ValidSection(mode, s)
  }

  function Delivery(s: seq<byte>): Event
    requires |s| >= HEADER_SIZE
  {
    Deliver(ParseHeader(s[..HEADER_SIZE]), s)
  }

  /** What is told of a section: its delivery, or why it is refused. */
  function Told(mode: Mode, s: seq<byte>): Event
    requires |s| >= HEADER_SIZE
  {
    if Refused(mode, s) then Problem(Verdict(mode, ParseHeader(s[..HEADER_SIZE])).value) else Delivery(s)
  }

  ghost function Tellings(mode: Mode, ss: seq<seq<byte>>): (events: seq<Event>)
    requires AllWhole(ss)
    ensures |events| == |ss| && forall i :: 0 <= i < |ss| ==> |ss[i]| >= HEADER_SIZE && events[i] == Told(mode, ss[i])
  {
    assert forall i :: 0 <= i < |ss| ==> ss[i] in ss;
    seq(|ss|, i requires 0 <= i < |ss| => assert ss[i] in ss; Told(mode, ss[i]))
  }

  ghost function Deliveries(mode: Mode, ss: seq<seq<byte>>): (events: seq<Event>)
    requires AllValid(mode, ss)
    ensures |events| == |ss| && forall i :: 0 <= i < |ss| ==> |ss[i]| >= HEADER_SIZE && events[i] == Delivery(ss[i])
  {
    assert forall i :: 0 <= i < |ss| ==> ss[i] in ss;
    seq(|ss|, i requires 0 <= i < |ss| => assert ss[i] in ss; Delivery(ss[i]))
  }

  // ----- the framer part way through a section -----

  /** The framer after `k` bytes of a section. */
  function Partial(mode: Mode, s: seq<byte>, k: nat): Scan
    requires k <= |s|
  {
    if k == 0 then Idle
    else if k < HEADER_SIZE then Collecting(s[..k], HEADER_SIZE)
    else if Refused(mode, s) then Ignoring(|s| - k)
    else Collecting(s[..k], |s|)
  }

  /** What has been told by then: a refusal, as soon as the header is complete. */
  function Early(mode: Mode, s: seq<byte>, k: nat): seq<Event>
    requires |s| >= HEADER_SIZE
  {
    if k >= HEADER_SIZE && Refused(mode, s) then [Told(mode, s)] else []
  }

  /** What remains to be told. */
  function Late(mode: Mode, s: seq<byte>, k: nat): seq<Event>
    requires |s| >= HEADER_SIZE
  {
    if k >= HEADER_SIZE && Refused(mode, s) then [] else [Told(mode, s)]
  }

  lemma PartialSettled(mode: Mode, s: seq<byte>, k: nat)
    requires WholeSection(s) && k < |s|
    ensures Settled(mode, Partial(mode, s, k)) && WellFormed(mode, Partial(mode, s, k))
  {
    if k >= HEADER_SIZE {
      assert s[..k][..HEADER_SIZE] == s[..HEADER_SIZE];
    }
  }

  /** A refused section of no length: only this one must not be split inside its header. */
  predicate RefusedEmpty(mode: Mode, s: seq<byte>) {
    |s| == HEADER_SIZE && Refused(mode, s)
  }

  lemma SplitHeader(mode: Mode, s: seq<byte>)
    requires WholeSection(s) && !RefusedEmpty(mode, s)
    ensures Complete(mode, s[..HEADER_SIZE])
         == if |s| == HEADER_SIZE then (Idle, [Told(mode, s)]) else (Partial(mode, s, HEADER_SIZE), Early(mode, s, HEADER_SIZE))
  {
    hide Verdict, ParseHeader;
    assert |s| == HEADER_SIZE ==> s[..HEADER_SIZE] == s;
  }

  lemma HeaderFilled(mode: Mode, s: seq<byte>, k: nat, bytes: seq<byte>)
    requires WholeSection(s) && 0 < k < HEADER_SIZE
    requires HEADER_SIZE - k <= |bytes| && s[..k] + bytes[..HEADER_SIZE - k] == s[..HEADER_SIZE]
    ensures var done := Complete(mode, s[..HEADER_SIZE]);
            && WellFormed(mode, Partial(mode, s, k)) && WellFormed(mode, done.0)
            && Run(mode, Partial(mode, s, k), bytes) == After(done.1, Run(mode, done.0, bytes[HEADER_SIZE - k..]))
  {
    hide Step, Run, Complete, WellFormed, Settled;
    PartialSettled(mode, s, k);
    RunFilled(mode, s[..k], HEADER_SIZE, bytes);
  }

  /** The header of a section, completed by a later slice. */
  lemma HeaderCompleted(mode: Mode, s: seq<byte>, k: nat, bytes: seq<byte>)
    requires WholeSection(s) && 0 < k < HEADER_SIZE && !RefusedEmpty(mode, s)
    requires HEADER_SIZE - k <= |bytes| && s[..k] + bytes[..HEADER_SIZE - k] == s[..HEADER_SIZE]
    ensures WellFormed(mode, Partial(mode, s, k))
    ensures |s| == HEADER_SIZE ==> Run(mode, Partial(mode, s, k), bytes) == After([Told(mode, s)], Run(mode, Idle, bytes[HEADER_SIZE - k..]))
    ensures |s| > HEADER_SIZE ==>
              && WellFormed(mode, Partial(mode, s, HEADER_SIZE))
              && Run(mode, Partial(mode, s, k), bytes)
                 == After(Early(mode, s, HEADER_SIZE), Run(mode, Partial(mode, s, HEADER_SIZE), bytes[HEADER_SIZE - k..]))
  {
    hide Step, Run, Complete, Told, Early, Refused, RefusedEmpty, WholeSection, WellFormed, Settled, Partial;
    WholeIsLong(s);
    PartialSettled(mode, s, k);
    HeaderFilled(mode, s, k, bytes);
    SplitHeader(mode, s);
    if |s| > HEADER_SIZE {
      PartialSettled(mode, s, HEADER_SIZE);
    }
  }

  /** The one section that does not leave the framer idle. */
  lemma FinishRefusedEmpty(mode: Mode, s: seq<byte>, k: nat, rest: seq<byte>)
    requires WholeSection(s) && RefusedEmpty(mode, s) && 0 < k < HEADER_SIZE
    ensures WellFormed(mode, Partial(mode, s, k))
    ensures Run(mode, Partial(mode, s, k), s[k..] + rest) == After([Told(mode, s)], Run(mode, Ignoring(0), rest))
  {
    hide Step, Run, Verdict, ParseHeader;
    assert s[..HEADER_SIZE] == s;
    var bytes := s[k..] + rest;
    assert s[..k] + bytes[..HEADER_SIZE - k] == s && bytes[HEADER_SIZE - k..] == rest;
    HeaderFilled(mode, s, k, bytes);
  }

  lemma FinishBody(mode: Mode, s: seq<byte>, k: nat, rest: seq<byte>)
    requires WholeSection(s) && HEADER_SIZE <= k < |s|
    ensures WellFormed(mode, Partial(mode, s, k))
    ensures Run(mode, Partial(mode, s, k), s[k..] + rest) == After(Late(mode, s, k), Run(mode, Idle, rest))
  {
    hide Step, Run, Verdict, ParseHeader;
    PartialSettled(mode, s, k);
    var bytes := s[k..] + rest;
    if Refused(mode, s) {
      RunIgnoring(mode, |s| - k, bytes);
    } else {
      RunFilled(mode, s[..k], |s|, bytes);
      assert s[..k] + bytes[..|s| - k] == s;
    }
    assert bytes[|s| - k..] == rest;
  }

  /** The rest of a section, followed by anything. */
  lemma FinishSection(mode: Mode, s: seq<byte>, k: nat, rest: seq<byte>)
    requires WholeSection(s) && k < |s| && (k > 0 && RefusedEmpty(mode, s) ==> rest != [])
    ensures WellFormed(mode, Partial(mode, s, k))
    ensures Run(mode, Partial(mode, s, k), s[k..] + rest) == After(Late(mode, s, k), Run(mode, Idle, rest))
  {
    hide Step, Run, Verdict, ParseHeader;
    PartialSettled(mode, s, k);
    var bytes := s[k..] + rest;
    if k > 0 && RefusedEmpty(mode, s) {
      FinishRefusedEmpty(mode, s, k, rest);
      RunIgnoring(mode, 0, rest);
    } else if k == 0 {
      assert bytes[..HEADER_SIZE] == s[..HEADER_SIZE] && bytes[..|s|] == s && bytes[|s|..] == rest;
      if Refused(mode, s) { RunRejected(mode, bytes); } else { RunAccepted(mode, bytes); }
    } else if k < HEADER_SIZE {
      assert s[..k] + bytes[..HEADER_SIZE - k] == s[..HEADER_SIZE];
      HeaderCompleted(mode, s, k, bytes);
      assert bytes[HEADER_SIZE - k..] == s[HEADER_SIZE..] + rest;
      if |s| > HEADER_SIZE {
        FinishBody(mode, s, HEADER_SIZE, rest);
      } else {
        assert s[HEADER_SIZE..] + rest == rest;
      }
    } else {
      FinishBody(mode, s, k, rest);
    }
  }

  lemma ExtendBody(mode: Mode, s: seq<byte>, k: nat, j: nat)
    requires WholeSection(s) && HEADER_SIZE <= k <= j < |s|
    ensures WellFormed(mode, Partial(mode, s, k))
    ensures Run(mode, Partial(mode, s, k), s[k..j]) == (Partial(mode, s, j), [])
  {
    hide Step, Run, Verdict, ParseHeader;
    PartialSettled(mode, s, k);
    if Refused(mode, s) {
      RunIgnoring(mode, |s| - k, s[k..j]);
    } else {
      RunGrowing(mode, s[..k], |s|, s[k..j]);
      assert s[..k] + s[k..j] == s[..j];
    }
  }

  lemma BeginSection(mode: Mode, s: seq<byte>, j: nat)
    requires WholeSection(s) && 0 < j < |s|
    ensures Feed(mode, Idle, s[..j]) == (Partial(mode, s, j), Early(mode, s, j))
  {
    hide Step, Run, Verdict, ParseHeader;
    if j < HEADER_SIZE {
      RunShortHeader(mode, s[..j]);
    } else {
      assert s[..j][..HEADER_SIZE] == s[..HEADER_SIZE];
      assert [Told(mode, s)] + [] == [Told(mode, s)];
      if Refused(mode, s) { RunRejected(mode, s[..j]); } else { RunAccepted(mode, s[..j]); }
    }
  }

  /** More of a section, but not its end. */
  lemma ExtendSection(mode: Mode, s: seq<byte>, k: nat, j: nat)
    requires WholeSection(s) && 0 < k <= j < |s|
    ensures Settled(mode, Partial(mode, s, k))
    ensures var r := Feed(mode, Partial(mode, s, k), s[k..j]);
            r.0 == Partial(mode, s, j) && Early(mode, s, k) + r.1 == Early(mode, s, j)
  {
    hide Step, Run, Verdict, ParseHeader, Refused;
    PartialSettled(mode, s, k);
    var bytes := s[k..j];
    if k >= HEADER_SIZE {
      ExtendBody(mode, s, k, j);
    } else if j < HEADER_SIZE {
      RunGrowing(mode, s[..k], HEADER_SIZE, bytes);
      assert s[..k] + bytes == s[..j];
    } else {
      assert s[..k] + bytes[..HEADER_SIZE - k] == s[..HEADER_SIZE];
      HeaderCompleted(mode, s, k, bytes);
      assert bytes[HEADER_SIZE - k..] == s[HEADER_SIZE..j];
      ExtendBody(mode, s, HEADER_SIZE, j);
    }
  }

  lemma AllWholeParts(a: seq<seq<byte>>, b: seq<seq<byte>>)
    requires AllWhole(a + b)
    ensures AllWhole(a) && AllWhole(b)
  {
    hide WholeSection;
    forall s | s in a ensures WholeSection(s) { assert s in a + b; }
    forall s | s in b ensures WholeSection(s) { assert s in a + b; }
  }

  lemma WholeIsLong(s: seq<byte>)
    requires WholeSection(s)
    ensures |s| >= HEADER_SIZE
  {
  }

  lemma TellingsCons(mode: Mode, s: seq<byte>, rest: seq<seq<byte>>)
    requires AllWhole([s] + rest)
    ensures WholeSection(s) && |s| >= HEADER_SIZE && AllWhole(rest)
    ensures Tellings(mode, [s] + rest) == [Told(mode, s)] + Tellings(mode, rest)
  {
    hide WholeSection, Told;
    AllWholeParts([s], rest);
    assert s in [s];
    WholeIsLong(s);
  }

  lemma TellingsConcat(mode: Mode, a: seq<seq<byte>>, b: seq<seq<byte>>)
    requires AllWhole(a) && AllWhole(b)
    ensures AllWhole(a + b)
    ensures Tellings(mode, a + b) == Tellings(mode, a) + Tellings(mode, b)
  {
    hide WholeSection, Told;
  }

  lemma {:induction false} RunSections(mode: Mode, ss: seq<seq<byte>>, rest: seq<byte>)
    requires AllWhole(ss)
    ensures Run(mode, Idle, Concat(ss) + rest) == After(Tellings(mode, ss), Run(mode, Idle, rest))
  {
    hide Step, Run, WholeSection, AllWhole, Told;
    if ss == [] {
      assert Concat(ss) + rest == rest;
    } else {
      var s, more := ss[0], ss[1..];
      assert ss == [s] + more;
      TellingsCons(mode, s, more);
      RunSections(mode, more, rest);
      FinishSection(mode, s, 0, Concat(more) + rest);
      assert s[0..] + (Concat(more) + rest) == Concat(ss) + rest;
      AfterAfter([Told(mode, s)], Tellings(mode, more), Run(mode, Idle, rest));
    }
  }

  // ----- sections that are all accepted -----

  lemma DeliveriesCons(mode: Mode, s: seq<byte>, rest: seq<seq<byte>>)
    requires AllValid(mode, [s] + rest)
    ensures ValidSection(mode, s) && |s| >= HEADER_SIZE && AllValid(mode, rest)
    ensures Deliveries(mode, [s] + rest) == [Delivery(s)] + Deliveries(mode, rest)
  {
    hide WholeSection;
    assert s in [s] + rest && ValidSection(mode, s);
    forall r | r in rest ensures ValidSection(mode, r) { assert r in [s] + rest; }
    WholeIsLong(s);
  }

  lemma ValidTold(mode: Mode, ss: seq<seq<byte>>)
    requires AllValid(mode, ss)
    ensures AllWhole(ss) && Tellings(mode, ss) == Deliveries(mode, ss)
  {
    hide WholeSection, Verdict, ParseHeader;
    forall i | 0 <= i < |ss|
      ensures |ss[i]| >= HEADER_SIZE && Told(mode, ss[i]) == Delivery(ss[i])
    {
      assert ss[i] in ss;
      WholeIsLong(ss[i]);
    }
  }

  // ----- plans -----

  /** The payload of one packet, and its payload_unit_start_indicator. */
  datatype Unit = Unit(start: bool, data: seq<byte>)

  /** A sender part way through its sections: `sent` bytes of `current` are out, or none is in
      progress if that is zero. */
  datatype Sender = Sender(current: seq<byte>, sent: nat, todo: seq<seq<byte>>)

  /** One packet's worth: `Start` finishes the section in progress, sends some whole sections
      and then the head of the next one or stuffing; `More` sends more of the section in
      progress, with stuffing if that ends it. */
  datatype Chunk =
    | Start(whole: nat, head: nat, stuffing: nat)
    | More(take: nat, stuffing: nat)

  ghost predicate Sending(mode: Mode, x: Sender) {
    && AllValid(mode, x.todo)
    && (x.sent > 0 ==> ValidSection(mode, x.current) && x.sent < |x.current|)
  }

  /** The same with sections that may be refused. */
  ghost predicate SendingAny(x: Sender) {
    && AllWhole(x.todo)
    && (x.sent > 0 ==> WholeSection(x.current) && x.sent < |x.current|)
  }

  /** No refused section of no length is split. */
  predicate Unsplit(mode: Mode, x: Sender) {
    x.sent > 0 ==> !RefusedEmpty(mode, x.current)
  }

  /** Or if one is, the packet that ends it has stuffing behind it. */
  predicate Mild(mode: Mode, x: Sender, c: Chunk) {
    Unsplit(mode, x) || (c.More? && (c.take < |Pending(x)| || c.stuffing > 0))
  }

  function Pending(x: Sender): seq<byte> {
    if 0 < x.sent <= |x.current| then x.current[x.sent..] else []
  }

  /** The sections not yet completely sent. */
  function Outstanding(x: Sender): seq<seq<byte>> {
    (if x.sent > 0 then [x.current] else []) + x.todo
  }

  predicate Legal(x: Sender, c: Chunk) {
    match c
    case Start(whole, head, stuffing) =>
      && |Pending(x)| < 256
      && whole <= |x.todo|
      && (head > 0 ==> whole < |x.todo| && head < |x.todo[whole]| && stuffing == 0)
    case More(take, stuffing) =>
      && x.sent > 0
      && take <= |Pending(x)|
      && (stuffing > 0 ==> take == |Pending(x)|)
  }

  /** The bytes of a `Start` payload from its first section start on. */
  function Body(x: Sender, c: Chunk): seq<byte>
    requires c.Start? && Legal(x, c)
  {
    Concat(x.todo[..c.whole])
    + (if c.head > 0 then x.todo[c.whole][..c.head] else Repeat(STUFFING_BYTE, c.stuffing))
  }

  function PayloadFor(x: Sender, c: Chunk): Unit
    requires Legal(x, c)
  {
    match c
    case Start(_, _, _) => Unit(true, [ByteOf(|Pending(x)|)] + (Pending(x) + Body(x, c)))
    case More(take, stuffing) => Unit(false, Pending(x)[..take] + Repeat(STUFFING_BYTE, stuffing))
  }

  function NextSender(x: Sender, c: Chunk): Sender
    requires Legal(x, c)
  {
    match c
    case Start(whole, head, _) =>
      if head > 0 then Sender(x.todo[whole], head, x.todo[whole + 1..]) else Sender([], 0, x.todo[whole..])
    case More(take, _) =>
      if take < |Pending(x)| then x.(sent := x.sent + take) else Sender([], 0, x.todo)
  }

  /** The sections that a chunk completes. */
  function Completes(x: Sender, c: Chunk): seq<seq<byte>>
    requires Legal(x, c)
  {
    match c
    case Start(whole, _, _) => (if x.sent > 0 then [x.current] else []) + x.todo[..whole]
    case More(take, _) => if take == |Pending(x)| then [x.current] else []
  }

  lemma OutstandingStart(x: Sender, c: Chunk)
    requires SendingAny(x) && c.Start? && Legal(x, c)
    ensures SendingAny(NextSender(x, c)) && AllWhole(x.todo[..c.whole])
    ensures Outstanding(NextSender(x, c)) == x.todo[c.whole..]
  {
    hide WholeSection, AllWhole;
    var rest := x.todo[c.whole..];
    assert x.todo == x.todo[..c.whole] + rest;
    AllWholeParts(x.todo[..c.whole], rest);
    if c.head > 0 {
      assert rest == [x.todo[c.whole]] + x.todo[c.whole + 1..];
      TellingsCons(SectionSyntax, x.todo[c.whole], x.todo[c.whole + 1..]);
    } else {
      assert [] + rest == rest;
    }
  }

  lemma AllWholeOutstanding(x: Sender)
    requires SendingAny(x)
    ensures AllWhole(Outstanding(x))
  {
    hide WholeSection;
  }

  lemma OutstandingMore(x: Sender, c: Chunk)
    requires SendingAny(x) && c.More? && Legal(x, c)
    ensures SendingAny(NextSender(x, c))
    ensures Outstanding(x) == Completes(x, c) + Outstanding(NextSender(x, c))
  {
    hide WholeSection, AllWhole;
    if c.take == |Pending(x)| {
      assert [] + x.todo == x.todo;
    }
  }

  lemma OutstandingStep(x: Sender, c: Chunk)
    requires SendingAny(x) && Legal(x, c)
    ensures SendingAny(NextSender(x, c))
    ensures Outstanding(x) == Completes(x, c) + Outstanding(NextSender(x, c))
    ensures AllWhole(Outstanding(x)) && AllWhole(Completes(x, c))
  {
    hide WholeSection, AllWhole, NextSender;
    AllWholeOutstanding(x);
    if c.Start? {
      OutstandingStart(x, c);
      var first := if x.sent > 0 then [x.current] else [];
      assert first + x.todo == (first + x.todo[..c.whole]) + x.todo[c.whole..];
    } else {
      OutstandingMore(x, c);
    }
    AllWholeParts(Completes(x, c), Outstanding(NextSender(x, c)));
  }

  /** The link between framer and sender. */
  function LinkFor(mode: Mode, x: Sender, synced: bool): Link
    requires x.sent <= |x.current|
  {
    Link(if x.sent > 0 then Partial(mode, x.current, x.sent) else Idle, synced)
  }

  /** What has been told of the section in progress. */
  ghost function EarlyFor(mode: Mode, x: Sender): seq<Event>
    requires SendingAny(x)
  {
    if x.sent > 0 then Early(mode, x.current, x.sent) else []
  }

  lemma LinkReady(mode: Mode, x: Sender, synced: bool)
    requires SendingAny(x) && (!synced ==> x.sent == 0)
    ensures Ready(mode, LinkFor(mode, x, synced))
  {
    hide WholeSection;
    if x.sent > 0 {
      PartialSettled(mode, x.current, x.sent);
    }
  }

  lemma PendingFeeds(mode: Mode, x: Sender)
    requires SendingAny(x) && Unsplit(mode, x) && x.sent > 0
    ensures Settled(mode, Partial(mode, x.current, x.sent))
    ensures |x.current| >= HEADER_SIZE
    ensures Feed(mode, Partial(mode, x.current, x.sent), Pending(x)) == (Idle, Late(mode, x.current, x.sent))
  {
    hide WholeSection, Step, Run, RefusedEmpty;
    WholeIsLong(x.current);
    PartialSettled(mode, x.current, x.sent);
    FinishSection(mode, x.current, x.sent, []);
    assert x.current[x.sent..] + [] == Pending(x);
    RunEmpty(mode, Idle);
    var late := Late(mode, x.current, x.sent);
    assert late + [] == late;
  }

  lemma StuffingFeeds(mode: Mode, n: nat)
    ensures Feed(mode, Idle, Repeat(STUFFING_BYTE, n)) == (Idle, [])
  {
    hide Step, Run;
    if n == 0 {
      assert Repeat(STUFFING_BYTE, 0) == [];
      RunEmpty(mode, Idle);
    } else {
      RunStuffing(mode, Repeat(STUFFING_BYTE, n));
    }
  }

  /** From a section start on, a payload yields its whole sections and begins the next. */
  lemma BodyFeeds(mode: Mode, x: Sender, c: Chunk)
    requires SendingAny(x) && c.Start? && Legal(x, c)
    ensures var y := NextSender(x, c);
            SendingAny(y) && AllWhole(x.todo[..c.whole]) &&
            Feed(mode, Idle, Body(x, c)) == (LinkFor(mode, y, true).scan, Tellings(mode, x.todo[..c.whole]) + EarlyFor(mode, y))
  {
    hide WholeSection, Step, Run, Verdict, ParseHeader, Early, Partial, Told;
    OutstandingStart(x, c);
    var ss := x.todo[..c.whole];
    if c.head > 0 {
      var s := x.todo[c.whole];
      RunSections(mode, ss, s[..c.head]);
      assert WholeSection(s);
      BeginSection(mode, s, c.head);
      FeedAfterSections(mode, ss, s[..c.head]);
    } else {
      var tail := Repeat(STUFFING_BYTE, c.stuffing);
      RunSections(mode, ss, tail);
      StuffingFeeds(mode, c.stuffing);
      FeedAfterSections(mode, ss, tail);
    }
  }

  lemma FeedAfterSections(mode: Mode, ss: seq<seq<byte>>, tail: seq<byte>)
    requires AllWhole(ss)
    ensures var r := Feed(mode, Idle, tail); Feed(mode, Idle, Concat(ss) + tail) == (r.0, Tellings(mode, ss) + r.1)
  {
    hide Run, AllWhole, Told;
    RunSections(mode, ss, tail);
    assert Tellings(mode, ss) == [] ==> Tellings(mode, ss) + Run(mode, Idle, tail).1 == Run(mode, Idle, tail).1;
  }

  /** What a packet tells, with what was told before of the section it continues: all that
      there is to tell of the sections it completes, and the beginning of the next. */
  ghost predicate Tells(mode: Mode, x: Sender, c: Chunk, r: LinkOutcome)
    requires SendingAny(x) && Legal(x, c)
  {
    var y := NextSender(x, c);
    && SendingAny(y) && AllWhole(Completes(x, c))
    && r.0 == LinkFor(mode, y, true)
    && EarlyFor(mode, x) + r.1 == Tellings(mode, Completes(x, c)) + EarlyFor(mode, y)
  }

  /** A start packet: what its bytes before the pointer close, and what its body tells. */
  lemma StartOutcome(mode: Mode, x: Sender, c: Chunk, synced: bool)
    requires SendingAny(x) && Unsplit(mode, x) && c.Start? && Legal(x, c)
    requires !synced ==> x.sent == 0
    ensures Ready(mode, LinkFor(mode, x, synced))
    ensures var y, r := NextSender(x, c), StartPayload(mode, LinkFor(mode, x, synced), PayloadFor(x, c).data);
            && SendingAny(y) && AllWhole(x.todo[..c.whole])
            && r.0 == LinkFor(mode, y, true)
            && r.1 == Closing(mode, LinkFor(mode, x, synced), Pending(x)) + (Tellings(mode, x.todo[..c.whole]) + EarlyFor(mode, y))
  {
    hide Feed, Body, Tellings, Closing, Ready, StartPayload, SendingAny, AllWhole, EarlyFor, Unsplit, NextSender, Partial, ByteOf;
    AnyWithin(x);
    LinkReady(mode, x, synced);
    BodyFeeds(mode, x, c);
    AnyWithin(NextSender(x, c));
    StartEvents(mode, LinkFor(mode, x, synced), Pending(x), Body(x, c));
  }

  lemma StartConsumed(mode: Mode, x: Sender, c: Chunk, synced: bool)
    requires SendingAny(x) && Unsplit(mode, x) && c.Start? && Legal(x, c)
    requires !synced ==> x.sent == 0
    ensures Ready(mode, LinkFor(mode, x, synced))
    ensures Tells(mode, x, c, StartPayload(mode, LinkFor(mode, x, synced), PayloadFor(x, c).data))
  {
    hide Told, Tellings, Closing, LinkFor, Ready, Late, StartPayload, EarlyFor, AllWhole, NextSender, PayloadFor, Unsplit,
      SendingAny;
    AnyWithin(x);
    OutstandingStep(x, c);
    StartOutcome(mode, x, c, synced);
    PendingCloses(mode, x, synced);
    var ss, rest := x.todo[..c.whole], EarlyFor(mode, NextSender(x, c));
    if x.sent > 0 {
      assert Completes(x, c) == [x.current] + ss;
      TellingsCons(mode, x.current, ss);
      Around(EarlyFor(mode, x), Late(mode, x.current, x.sent), [Told(mode, x.current)], Tellings(mode, ss), rest);
    } else {
      NoneEarly(mode, x);
      assert Completes(x, c) == ss;
      assert [] + ([] + (Tellings(mode, ss) + rest)) == Tellings(mode, ss) + rest;
    }
  }

  lemma NoneEarly(mode: Mode, x: Sender)
    requires SendingAny(x) && x.sent == 0
    ensures EarlyFor(mode, x) == []
  {
  }

  lemma Around(early: seq<Event>, late: seq<Event>, told: seq<Event>, more: seq<Event>, rest: seq<Event>)
    requires early + late == told
    ensures early + (late + (more + rest)) == (told + more) + rest
  {
    assert early + (late + (more + rest)) == (early + late) + (more + rest);
    assert told + (more + rest) == (told + more) + rest;
  }

  /** The bytes before the pointer finish the section in progress and no more. */
  lemma PendingCloses(mode: Mode, x: Sender, synced: bool)
    requires SendingAny(x) && Unsplit(mode, x)
    requires !synced ==> x.sent == 0
    ensures Ready(mode, LinkFor(mode, x, synced))
    ensures x.sent > 0 ==>
              && |x.current| >= HEADER_SIZE
              && Closing(mode, LinkFor(mode, x, synced), Pending(x)) == Late(mode, x.current, x.sent)
              && EarlyFor(mode, x) + Late(mode, x.current, x.sent) == [Told(mode, x.current)]
    ensures x.sent == 0 ==> Closing(mode, LinkFor(mode, x, synced), Pending(x)) == []
  {
    hide WholeSection, Feed, Told, Refused, RefusedEmpty;
    LinkReady(mode, x, synced);
    if x.sent > 0 {
      PendingFeeds(mode, x);
      var late := Late(mode, x.current, x.sent);
      assert late + [] == late;
    }
  }

  lemma MoreConsumed(mode: Mode, x: Sender, c: Chunk)
    requires SendingAny(x) && Mild(mode, x, c) && c.More? && Legal(x, c)
    ensures Ready(mode, LinkFor(mode, x, true))
    ensures Tells(mode, x, c, ContinuePayload(mode, LinkFor(mode, x, true), PayloadFor(x, c).data))
  {
    hide WholeSection, Step, Run, Verdict, ParseHeader, Told, Refused, RefusedEmpty;
    LinkReady(mode, x, true);
    OutstandingStep(x, c);
    WholeIsLong(x.current);
    var payload := PayloadFor(x, c).data;
    var j := x.sent + c.take;
    if c.take < |Pending(x)| {
      assert payload == x.current[x.sent..j];
      ExtendSection(mode, x.current, x.sent, j);
      assert Tellings(mode, []) == [];
      assert [] + Early(mode, x.current, j) == Early(mode, x.current, j);
    } else {
      var rest := Repeat(STUFFING_BYTE, c.stuffing);
      assert payload == x.current[x.sent..] + rest;
      FinishSection(mode, x.current, x.sent, rest);
      StuffingFeeds(mode, c.stuffing);
      var late := Late(mode, x.current, x.sent);
      assert late + [] == late;
      assert [Told(mode, x.current)] == Tellings(mode, [x.current]);
      assert [Told(mode, x.current)] + [] == [Told(mode, x.current)];
    }
  }

  lemma ChunkConsumed(mode: Mode, x: Sender, c: Chunk, synced: bool)
    requires SendingAny(x) && Mild(mode, x, c) && Legal(x, c)
    requires !synced ==> x.sent == 0
    ensures Ready(mode, LinkFor(mode, x, synced))
    ensures var u := PayloadFor(x, c);
            Tells(mode, x, c, Consume(mode, LinkFor(mode, x, synced), u.start, Ok(Some(u.data))))
  {
    hide WholeSection, Verdict, ParseHeader, Feed, Tells, RefusedEmpty;
    if c.Start? {
      StartConsumed(mode, x, c, synced);
    } else {
      MoreConsumed(mode, x, c);
    }
  }

  // ----- whole streams -----

  ghost predicate LegalPlan(x: Sender, plan: seq<Chunk>)
    decreases |plan|
  {
    plan == [] || (Legal(x, plan[0]) && LegalPlan(NextSender(x, plan[0]), plan[1..]))
  }

  ghost function Packetise(x: Sender, plan: seq<Chunk>): seq<Unit>
    requires LegalPlan(x, plan)
    decreases |plan|
  {
    if plan == [] then [] else [PayloadFor(x, plan[0])] + Packetise(NextSender(x, plan[0]), plan[1..])
  }

  ghost function Finally(x: Sender, plan: seq<Chunk>): Sender
    requires LegalPlan(x, plan)
    decreases |plan|
  {
    if plan == [] then x else Finally(NextSender(x, plan[0]), plan[1..])
  }

  /** The sections that a plan completes, in order. */
  ghost function Completed(x: Sender, plan: seq<Chunk>): seq<seq<byte>>
    requires LegalPlan(x, plan)
    decreases |plan|
  {
    if plan == [] then [] else Completes(x, plan[0]) + Completed(NextSender(x, plan[0]), plan[1..])
  }

  /** The framer over a list of packets. */
  function ConsumeUnits(mode: Mode, l: Link, units: seq<Unit>): (r: LinkOutcome)
    requires Ready(mode, l)
    ensures Ready(mode, r.0)
    decreases |units|
  {
    if units == [] then (l, [])
    else
      var first := Consume(mode, l, units[0].start, Ok(Some(units[0].data)));
      var rest := ConsumeUnits(mode, first.0, units[1..]);
      (rest.0, first.1 + rest.1)
  }

  ghost predicate MildPlan(mode: Mode, x: Sender, plan: seq<Chunk>)
    requires LegalPlan(x, plan)
    decreases |plan|
  {
    plan != [] ==> Mild(mode, x, plan[0]) && MildPlan(mode, NextSender(x, plan[0]), plan[1..])
  }

  /** What is completed and what is left, together, are what there was to send. */
  lemma {:induction false} PlanOutstanding(x: Sender, plan: seq<Chunk>)
    requires SendingAny(x) && LegalPlan(x, plan)
    ensures SendingAny(Finally(x, plan)) && AllWhole(Completed(x, plan))
    ensures Outstanding(x) == Completed(x, plan) + Outstanding(Finally(x, plan))
    decreases |plan|
  {
    hide Legal, NextSender, Completes, SendingAny, AllWhole, Outstanding;
    if plan == [] {
      NothingTold(SectionSyntax);
      assert [] + Outstanding(x) == Outstanding(x);
    } else {
      var c, y, rest := plan[0], NextSender(x, plan[0]), plan[1..];
      OutstandingStep(x, c);
      PlanOutstanding(y, rest);
      TellingsConcat(SectionSyntax, Completes(x, c), Completed(y, rest));
      assert Completes(x, c) + (Completed(y, rest) + Outstanding(Finally(y, rest)))
          == (Completes(x, c) + Completed(y, rest)) + Outstanding(Finally(y, rest));
    }
  }

  /** Over a plan: what has been told of the section in progress at its beginning, and what it
      tells, are all there is to tell of the sections completed, in order, and the beginning
      of the one in progress at its end. */
  ghost predicate Heard(mode: Mode, x: Sender, plan: seq<Chunk>, synced: bool)
    requires LegalPlan(x, plan)
  {
    var y, done := Finally(x, plan), Completed(x, plan);
    && SendingAny(x) && SendingAny(y) && AllWhole(done)
    && Ready(mode, LinkFor(mode, x, synced))
    && var r := ConsumeUnits(mode, LinkFor(mode, x, synced), Packetise(x, plan));
       && r.0 == LinkFor(mode, y, synced || plan != [])
       && EarlyFor(mode, x) + r.1 == Tellings(mode, done) + EarlyFor(mode, y)
  }

  lemma NothingTold(mode: Mode)
    ensures AllWhole([]) && Tellings(mode, []) == []
  {
  }

  /** One packet of a plan, when the rest of it is heard. */
  lemma HeardStep(mode: Mode, x: Sender, plan: seq<Chunk>, synced: bool)
    requires SendingAny(x) && plan != [] && LegalPlan(x, plan) && Mild(mode, x, plan[0])
    requires !synced ==> x.sent == 0
    requires Heard(mode, NextSender(x, plan[0]), plan[1..], true)
    ensures Heard(mode, x, plan, synced)
  {
    hide Legal, PayloadFor, NextSender, Completes, Tellings, SendingAny, AllWhole, LinkFor, Ready, Consume, EarlyFor, Mild;
    var c, y, rest := plan[0], NextSender(x, plan[0]), plan[1..];
    AnyWithin(x);
    AnyWithin(y);
    ChunkConsumed(mode, x, c, synced);
    TellingsConcat(mode, Completes(x, c), Completed(y, rest));
    assert Packetise(x, plan) == [PayloadFor(x, c)] + Packetise(y, rest);
    assert Packetise(x, plan)[1..] == Packetise(y, rest);
    var first := Consume(mode, LinkFor(mode, x, synced), PayloadFor(x, c).start, Ok(Some(PayloadFor(x, c).data)));
    var more := ConsumeUnits(mode, LinkFor(mode, y, true), Packetise(y, rest));
    Joined(EarlyFor(mode, x), first.1, Tellings(mode, Completes(x, c)), EarlyFor(mode, y), more.1,
           Tellings(mode, Completed(y, rest)), EarlyFor(mode, Finally(y, rest)));
  }

  lemma Joined(a: seq<Event>, first: seq<Event>, told: seq<Event>, b: seq<Event>, more: seq<Event>, rest: seq<Event>, c: seq<Event>)
    requires a + first == told + b && b + more == rest + c
    ensures a + (first + more) == (told + rest) + c
  {
    assert a + (first + more) == (a + first) + more;
    assert (told + b) + more == told + (b + more);
    assert told + (rest + c) == (told + rest) + c;
  }

  /** Over any legal packetisation of sections of which some may be refused, each delivery and
      each refusal is told once and in order, the refusals as soon as a header is complete,
      and nothing else is; provided that no refused section of no length is split, unless there
      is stuffing behind it. */
  lemma {:induction false} PlanHeard(mode: Mode, x: Sender, plan: seq<Chunk>, synced: bool)
    requires SendingAny(x) && LegalPlan(x, plan) && MildPlan(mode, x, plan)
    requires !synced ==> x.sent == 0
    ensures Heard(mode, x, plan, synced)
    decreases |plan|
  {
    if plan == [] {
      hide SendingAny, AllWhole, LinkFor, Ready, Tellings, EarlyFor;
      LinkReady(mode, x, synced);
      NothingTold(mode);
      assert [] + EarlyFor(mode, x) == EarlyFor(mode, x) + [];
    } else {
      hide Legal, NextSender, SendingAny, Heard, Mild;
      OutstandingStep(x, plan[0]);
      PlanHeard(mode, NextSender(x, plan[0]), plan[1..], true);
      HeardStep(mode, x, plan, synced);
    }
  }

  // ----- all sections accepted -----

  lemma ValidOutstanding(mode: Mode, x: Sender)
    requires SendingAny(x)
    ensures Sending(mode, x) <==> AllValid(mode, Outstanding(x))
  {
    hide ValidSection, WholeSection;
    if AllValid(mode, Outstanding(x)) {
      assert forall s :: s in x.todo ==> s in Outstanding(x);
      assert x.sent > 0 ==> x.current in Outstanding(x);
    }
  }

  lemma SendingIsAny(mode: Mode, x: Sender)
    requires Sending(mode, x)
    ensures SendingAny(x) && Unsplit(mode, x) && EarlyFor(mode, x) == []
  {
    hide WholeSection, Verdict, ParseHeader;
    if x.sent > 0 {
      WholeIsLong(x.current);
    }
  }

  lemma AllValidParts(mode: Mode, a: seq<seq<byte>>, b: seq<seq<byte>>)
    requires AllValid(mode, a + b)
    ensures AllValid(mode, a) && AllValid(mode, b)
  {
    hide ValidSection;
    forall s | s in a ensures ValidSection(mode, s) { assert s in a + b; }
    forall s | s in b ensures ValidSection(mode, s) { assert s in a + b; }
  }

  lemma SendingStep(mode: Mode, x: Sender, c: Chunk)
    requires Sending(mode, x) && Legal(x, c)
    ensures Sending(mode, NextSender(x, c))
  {
    hide Sending, AllValid, SendingAny, AllWhole, Outstanding, NextSender, Completes, Legal, EarlyFor, Unsplit;
    SendingIsAny(mode, x);
    OutstandingStep(x, c);
    ValidOutstanding(mode, x);
    AllValidParts(mode, Completes(x, c), Outstanding(NextSender(x, c)));
    ValidOutstanding(mode, NextSender(x, c));
  }

  lemma {:induction false} ValidMild(mode: Mode, x: Sender, plan: seq<Chunk>)
    requires Sending(mode, x) && LegalPlan(x, plan)
    ensures MildPlan(mode, x, plan)
    decreases |plan|
  {
    hide Sending, Legal, NextSender, EarlyFor, SendingAny, Unsplit;
    SendingIsAny(mode, x);
    if plan != [] {
      SendingStep(mode, x, plan[0]);
      ValidMild(mode, NextSender(x, plan[0]), plan[1..]);
    }
  }

  /** Over any legal packetisation the framer delivers exactly the sections completed, in
      order and byte for byte, with no error; and what it holds is what was begun. */
  lemma PlanConsumed(mode: Mode, x: Sender, plan: seq<Chunk>, synced: bool)
    requires Sending(mode, x) && LegalPlan(x, plan)
    requires !synced ==> x.sent == 0
    ensures Ready(mode, LinkFor(mode, x, synced))
    ensures var y := Finally(x, plan);
            && Sending(mode, y)
            && AllValid(mode, Completed(x, plan))
            && Outstanding(x) == Completed(x, plan) + Outstanding(y)
            && ConsumeUnits(mode, LinkFor(mode, x, synced), Packetise(x, plan))
               == (LinkFor(mode, y, synced || plan != []), Deliveries(mode, Completed(x, plan)))
  {
    hide Sending, AllValid, Outstanding, Deliveries, Tellings, LinkFor, Ready, ConsumeUnits, Finally, Completed, Packetise,
      LegalPlan, MildPlan, SendingAny, AllWhole, EarlyFor, Unsplit;
    var y, done := Finally(x, plan), Completed(x, plan);
    SendingIsAny(mode, x);
    ValidMild(mode, x, plan);
    PlanOutstanding(x, plan);
    ValidOutstanding(mode, x);
    AllValidParts(mode, done, Outstanding(y));
    ValidOutstanding(mode, y);
    SendingIsAny(mode, y);
    PlanHeard(mode, x, plan, synced);
    ValidTold(mode, done);
    AnyWithin(x);
    AnyWithin(y);
    var r := ConsumeUnits(mode, LinkFor(mode, x, synced), Packetise(x, plan));
    assert [] + r.1 == r.1 && Deliveries(mode, done) + [] == Deliveries(mode, done);
  }

  lemma AnyWithin(x: Sender)
    requires SendingAny(x)
    ensures x.sent > 0 ==> x.sent < |x.current|
  {
  }

  /** The round trip: packets made from a list of valid sections, by any legal plan that
      finishes, make a new framer deliver that list. */
  lemma DeframePacketised(mode: Mode, sections: seq<seq<byte>>, plan: seq<Chunk>)
    requires AllValid(mode, sections)
    requires LegalPlan(Sender([], 0, sections), plan)
    requires Outstanding(Finally(Sender([], 0, sections), plan)) == []
    ensures ConsumeUnits(mode, Fresh, Packetise(Sender([], 0, sections), plan)).1 == Deliveries(mode, sections)
    ensures ConsumeUnits(mode, Fresh, Packetise(Sender([], 0, sections), plan)).0 == Link(Idle, plan != [])
  {
    hide ValidSection, Consume, Legal;
    var x := Sender([], 0, sections);
    PlanConsumed(mode, x, plan, false);
    assert Outstanding(x) == sections;
    assert Completed(x, plan) + [] == Completed(x, plan);
  }

  /** The round trip with refused sections among them: each section is told of once, in order,
      by its delivery or by the reason it is refused. */
  lemma DeframeMixed(mode: Mode, sections: seq<seq<byte>>, plan: seq<Chunk>)
    requires AllWhole(sections)
    requires LegalPlan(Sender([], 0, sections), plan) && MildPlan(mode, Sender([], 0, sections), plan)
    requires Outstanding(Finally(Sender([], 0, sections), plan)) == []
    ensures ConsumeUnits(mode, Fresh, Packetise(Sender([], 0, sections), plan)).1 == Tellings(mode, sections)
    ensures ConsumeUnits(mode, Fresh, Packetise(Sender([], 0, sections), plan)).0 == Link(Idle, plan != [])
  {
    hide WholeSection, Consume, Legal, Tellings;
    var x := Sender([], 0, sections);
    PlanOutstanding(x, plan);
    PlanHeard(mode, x, plan, false);
    assert Outstanding(x) == sections && Completed(x, plan) + [] == Completed(x, plan);
    var told := ConsumeUnits(mode, Fresh, Packetise(x, plan)).1;
    assert [] + told == told && Tellings(mode, sections) + [] == Tellings(mode, sections);
  }

  // ----- resynchronisation -----

  /** The events of the bytes before the pointer, which end whatever was in progress. */
  function Closing(mode: Mode, l: Link, stray: seq<byte>): seq<Event>
    requires Ready(mode, l)
  {
    var before := BeforePointer(mode, l, stray);
    before.1 + AtPointer(before.0).1
  }

  /** Whatever state the framer is in, a start packet whose pointer is in bounds leaves it, and
      every packet after that, as it would a new framer; only the events of the bytes before
      the pointer differ. */
  lemma StartResynchronises(mode: Mode, l: Link, stray: seq<byte>, body: seq<byte>, later: seq<Unit>)
    requires Ready(mode, l) && |stray| < 256
    ensures var units := [Unit(true, [ByteOf(|stray|)] + (stray + body))] + later;
            var anew := ConsumeUnits(mode, Fresh, units);
            ConsumeUnits(mode, l, units) == (anew.0, Closing(mode, l, stray) + anew.1)
  {
    hide Feed, StartPayload, Closing, ConsumeUnits, ByteOf;
    var u := Unit(true, [ByteOf(|stray|)] + (stray + body));
    StartEvents(mode, l, stray, body);
    StartEvents(mode, Fresh, stray, body);
    FreshCloses(mode, stray);
    var post := Feed(mode, Idle, body);
    assert [] + post.1 == post.1;
    SameFromHere(mode, l, u, Closing(mode, l, stray), (Link(post.0, true), post.1), later);
  }

  /** Two links that a packet leaves alike stay alike. */
  lemma SameFromHere(mode: Mode, l: Link, u: Unit, extra: seq<Event>, r: LinkOutcome, later: seq<Unit>)
    requires Ready(mode, l) && Ready(mode, r.0) && u.start
    requires StartPayload(mode, l, u.data) == (r.0, extra + r.1)
    requires StartPayload(mode, Fresh, u.data) == r
    ensures var anew := ConsumeUnits(mode, Fresh, [u] + later);
            ConsumeUnits(mode, l, [u] + later) == (anew.0, extra + anew.1)
  {
    hide StartPayload;
    ConsumeCons(mode, l, u, later);
    ConsumeCons(mode, Fresh, u, later);
    var rest := ConsumeUnits(mode, r.0, later);
    assert (extra + r.1) + rest.1 == extra + (r.1 + rest.1);
  }

  lemma ConsumeCons(mode: Mode, l: Link, u: Unit, later: seq<Unit>)
    requires Ready(mode, l) && u.start
    ensures var first := StartPayload(mode, l, u.data);
            var rest := ConsumeUnits(mode, first.0, later);
            ConsumeUnits(mode, l, [u] + later) == (rest.0, first.1 + rest.1)
  {
    hide StartPayload;
    assert ([u] + later)[1..] == later;
  }

  lemma StartEvents(mode: Mode, l: Link, stray: seq<byte>, body: seq<byte>)
    requires Ready(mode, l) && |stray| < 256
    ensures var post := Feed(mode, Idle, body);
            StartPayload(mode, l, [ByteOf(|stray|)] + (stray + body)) == (Link(post.0, true), Closing(mode, l, stray) + post.1)
  {
    hide Feed, BeforePointer, AtPointer;
    var payload := [ByteOf(|stray|)] + (stray + body);
    assert payload[1..] == stray + body;
    assert payload[1..][..|stray|] == stray && payload[1..][|stray|..] == body;
  }

  lemma FreshCloses(mode: Mode, stray: seq<byte>)
    ensures Closing(mode, Fresh, stray) == []
  {
  }

  /** A sender that starts again is heard in full, whatever was lost before: after any packets
      at all, and any stray bytes before the pointer of its first packet, all the sections its
      plan completes are delivered, and nothing else after the pointer. */
  lemma HeardAfterLoss(mode: Mode, before: seq<Unit>, stray: seq<byte>, sections: seq<seq<byte>>, c: Chunk, plan: seq<Chunk>)
    requires AllValid(mode, sections) && |stray| < 256
    requires c.Start? && LegalPlan(Sender([], 0, sections), [c] + plan)
    ensures var x := Sender([], 0, sections);
            var first := Unit(true, [ByteOf(|stray|)] + (stray + Body(x, c)));
            var l := ConsumeUnits(mode, Fresh, before).0;
            var y := Finally(x, [c] + plan);
            && Sending(mode, y) && AllValid(mode, Completed(x, [c] + plan))
            && Outstanding(x) == Completed(x, [c] + plan) + Outstanding(y)
            && ConsumeUnits(mode, l, [first] + Packetise(NextSender(x, c), plan))
               == (LinkFor(mode, y, true), Closing(mode, l, stray) + Deliveries(mode, Completed(x, [c] + plan)))
  {
    hide ValidSection, Feed, Legal, NextSender, Completes, Body, Closing;
    var x := Sender([], 0, sections);
    var l := ConsumeUnits(mode, Fresh, before).0;
    var later := Packetise(NextSender(x, c), plan);
    assert ([c] + plan)[1..] == plan;
    PlanConsumed(mode, x, [c] + plan, false);
    assert Packetise(x, [c] + plan) == [PayloadFor(x, c)] + later;
    StartResynchronises(mode, l, stray, Body(x, c), later);
    StrayDropped(mode, x, c, stray);
    var first := Unit(true, [ByteOf(|stray|)] + (stray + Body(x, c)));
    assert ([first] + later)[1..] == later && ([PayloadFor(x, c)] + later)[1..] == later;
  }

  /** A new framer drops the bytes before the first pointer it sees. */
  lemma StrayDropped(mode: Mode, x: Sender, c: Chunk, stray: seq<byte>)
    requires x.sent == 0 && c.Start? && Legal(x, c) && |stray| < 256
    ensures StartPayload(mode, Fresh, [ByteOf(|stray|)] + (stray + Body(x, c))) == StartPayload(mode, Fresh, PayloadFor(x, c).data)
  {
    hide Feed, Body;
    StartEvents(mode, Fresh, stray, Body(x, c));
    StartEvents(mode, Fresh, [], Body(x, c));
    FreshCloses(mode, stray);
    FreshCloses(mode, []);
  }
}
