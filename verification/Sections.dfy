/** PSI section framing as a machine that takes one byte at a time. It says what the
    slice-based framer of src/psi/mod.rs computes, without its fast path. */
module Sections {
  import opened Bytes

  const HEADER_SIZE := 3
  const TABLE_SYNTAX_HEADER_SIZE := 5
  const SECTION_LIMIT := 4093
  const STUFFING_BYTE: byte := 0xff

  datatype SectionHeader = SectionHeader(tableId: byte, syntax: bool, private_: bool, length: nat)

  function ParseHeader(b: seq<byte>): (h: SectionHeader)
    requires |b| == HEADER_SIZE
    ensures h.length <= 4095
  {
    SectionHeader(b[0], b[1] & 0x80 != 0, b[1] & 0x40 != 0, Length12(b[1], b[2]))
  }

  /** The two kinds of framer. */
  datatype Mode = SectionSyntax | CompactSyntax

  datatype FramerError =
    | UnexpectedSectionSyntaxIndicator(tableId: byte)
    | PsiSectionTooLarge(tableId: byte, length: nat, limit: nat)
    | SectionDataTooShort(tableId: byte, actual: nat, minimum: nat)
    | SectionHeaderTooShort
    | PsiPointerOutOfBounds
    | ExtraDataAfterSectionComplete
    | NoPayloadInPsiPacket
    | MalformedPayload

  /** What the framer tells its parser (`Deliver`, `Reset`) and its error sink (`Problem`). */
  datatype Event =
    | Deliver(header: SectionHeader, data: seq<byte>)
    | Problem(error: FramerError)
    | Reset

  /** `validate_header`: the reason for rejecting a section, if there is one. */
  function Verdict(mode: Mode, h: SectionHeader): Option<FramerError> {
    if h.syntax != mode.SectionSyntax? then Some(UnexpectedSectionSyntaxIndicator(h.tableId))
    else if h.length > SECTION_LIMIT then Some(PsiSectionTooLarge(h.tableId, h.length, SECTION_LIMIT))
    else if mode.SectionSyntax? && h.length < TABLE_SYNTAX_HEADER_SIZE then
      Some(SectionDataTooShort(h.tableId, HEADER_SIZE + h.length, HEADER_SIZE + TABLE_SYNTAX_HEADER_SIZE))
    else None
  }

  /** Where the machine is between two bytes. `Header` is a section header not yet complete,
      all of it in the current slice; `Stuffed` is past the last section of the slice. */
  datatype Scan =
    | Idle
    | Header(h: seq<byte>)
    | Collecting(buf: seq<byte>, target: nat)
    | Ignoring(remaining: nat)
    | Stuffed

  type Outcome = (Scan, seq<Event>)

  ghost predicate WellFormed(mode: Mode, s: Scan) {
    match s
    case Idle => true
    case Stuffed => true
    case Header(h) => 1 <= |h| < HEADER_SIZE && h[0] != STUFFING_BYTE
    case Collecting(buf, target) =>
      && 1 <= |buf| < target <= HEADER_SIZE + SECTION_LIMIT
      && buf[0] != STUFFING_BYTE
      && if |buf| < HEADER_SIZE then target == HEADER_SIZE
         else Verdict(mode, ParseHeader(buf[..HEADER_SIZE])) == None
              && target == HEADER_SIZE + ParseHeader(buf[..HEADER_SIZE]).length
    case Ignoring(n) => n <= 4095
  }

  /** A complete header: reject the section and skip its body, or collect it. The framer
      leaves a rejected empty section by way of `Ignoring(0)` if its header was split. */
  function Headed(mode: Mode, h: seq<byte>, split: bool): Outcome
    requires |h| == HEADER_SIZE
  {
    var header := ParseHeader(h);
    match Verdict(mode, header)
    case Some(e) => (if header.length == 0 && !split then Idle else Ignoring(header.length), [Problem(e)])
    case None =>
      if header.length == 0 then (Idle, [Deliver(header, h)])
      else (Collecting(h, HEADER_SIZE + header.length), [])
  }

  /** The buffer has reached its target. */
  function Complete(mode: Mode, buf: seq<byte>): Outcome
    requires |buf| >= HEADER_SIZE
  {
    if |buf| == HEADER_SIZE then Headed(mode, buf, true)
    else (Idle, [Deliver(ParseHeader(buf[..HEADER_SIZE]), buf)])
  }

  function StartByte(b: byte): Scan {
    if b == STUFFING_BYTE then Stuffed else Header([b])
  }

  function Step(mode: Mode, s: Scan, b: byte): (r: Outcome)
    requires WellFormed(mode, s)
    ensures WellFormed(mode, r.0)
  {
    match s
    case Idle => (StartByte(b), [])
    case Stuffed => (Stuffed, [])
    case Header(h) =>
      if |h| + 1 < HEADER_SIZE then (Header(h + [b]), []) else Headed(mode, h + [b], false)
    case Collecting(buf, target) =>
      if |buf| + 1 < target then
        assert |buf| >= HEADER_SIZE ==> (buf + [b])[..HEADER_SIZE] == buf[..HEADER_SIZE];
        (Collecting(buf + [b], target), [])
      else Complete(mode, buf + [b])
    case Ignoring(n) =>
      if n == 0 then (StartByte(b), []) else if n == 1 then (Idle, []) else (Ignoring(n - 1), [])
  }

  function After(events: seq<Event>, r: Outcome): Outcome {
    if events == [] then r else (r.0, events + r.1)
  }

  lemma AfterAfter(a: seq<Event>, b: seq<Event>, r: Outcome)
    ensures After(a, After(b, r)) == After(a + b, r)
    ensures After(a, r).1 == a + r.1
    ensures b == [] ==> a + b == a
  {
    assert a + (b + r.1) == (a + b) + r.1;
    assert a == [] ==> a + b == b;
    assert b == [] ==> a + b == a;
  }

  function Run(mode: Mode, s: Scan, bytes: seq<byte>): (r: Outcome)
    requires WellFormed(mode, s)
    ensures WellFormed(mode, r.0)
    decreases |bytes|
  {
    if bytes == [] then (s, [])
    else
      var first := Step(mode, s, bytes[0]);
      After(first.1, Run(mode, first.0, bytes[1..]))
  }

  /** The end of a slice ends stuffing, and splits a header that is not complete. */
  function EndSlice(s: Scan): Scan {
    match s
    case Header(h) => Collecting(h, HEADER_SIZE)
    case Stuffed => Idle
    case _ => s
  }

  /** States between two slices: the states of the framer. */
  ghost predicate Settled(mode: Mode, s: Scan) {
    WellFormed(mode, s) && !s.Header? && !s.Stuffed?
  }

  /** What `feed` does with one slice. */
  function Feed(mode: Mode, s: Scan, bytes: seq<byte>): (r: Outcome)
    requires WellFormed(mode, s)
    ensures Settled(mode, r.0)
  {
    var r := Run(mode, s, bytes);
    (EndSlice(r.0), r.1)
  }

  // ----- runs over pieces -----

  lemma RunEmpty(mode: Mode, s: Scan)
    requires WellFormed(mode, s)
    ensures Run(mode, s, []) == (s, [])
  {
  }

  lemma {:induction false} RunConcat(mode: Mode, s: Scan, a: seq<byte>, b: seq<byte>)
    requires WellFormed(mode, s)
    ensures Run(mode, s, a + b) == After(Run(mode, s, a).1, Run(mode, Run(mode, s, a).0, b))
    decreases |a|
  {
    if a == [] {
      assert a + b == b;
    } else {
      assert (a + b)[0] == a[0] && (a + b)[1..] == a[1..] + b;
      var first := Step(mode, s, a[0]);
      RunConcat(mode, first.0, a[1..], b);
      AfterAfter(first.1, Run(mode, first.0, a[1..]).1, Run(mode, Run(mode, s, a).0, b));
    }
  }

  lemma {:induction false} RunStuffed(mode: Mode, bytes: seq<byte>)
    ensures Run(mode, Stuffed, bytes) == (Stuffed, [])
    decreases |bytes|
  {
    if bytes != [] {
      RunStuffed(mode, bytes[1..]);
    }
  }

  /** Skipping the body of a rejected section. */
  lemma {:induction false} RunIgnoring(mode: Mode, n: nat, bytes: seq<byte>)
    requires n <= 4095
    ensures |bytes| < n ==> Run(mode, Ignoring(n), bytes) == (Ignoring(n - |bytes|), [])
    ensures 1 <= n <= |bytes| ==> Run(mode, Ignoring(n), bytes) == Run(mode, Idle, bytes[n..])
    ensures n == 0 && bytes != [] ==> Run(mode, Ignoring(n), bytes) == Run(mode, Idle, bytes)
    decreases |bytes|
  {
    if n > 1 && bytes != [] {
      RunIgnoring(mode, n - 1, bytes[1..]);
      assert n <= |bytes| ==> bytes[1..][n - 1..] == bytes[n..];
    }
  }

  /** One more byte in the buffer, short of its target. */
  lemma Grow(mode: Mode, buf: seq<byte>, target: nat, b: byte)
    requires WellFormed(mode, Collecting(buf, target)) && |buf| + 1 < target
    ensures WellFormed(mode, Collecting(buf + [b], target))
    ensures Step(mode, Collecting(buf, target), b) == (Collecting(buf + [b], target), [])
  {
  }

  /** Filling the buffer, short of its target. */
  lemma {:induction false} RunGrowing(mode: Mode, buf: seq<byte>, target: nat, bytes: seq<byte>)
    requires WellFormed(mode, Collecting(buf, target)) && |buf| + |bytes| < target
    ensures WellFormed(mode, Collecting(buf + bytes, target))
    ensures Run(mode, Collecting(buf, target), bytes) == (Collecting(buf + bytes, target), [])
    decreases |bytes|
  {
    hide WellFormed, Step;
    if bytes == [] {
      assert buf + bytes == buf;
    } else {
      Grow(mode, buf, target, bytes[0]);
      RunGrowing(mode, buf + [bytes[0]], target, bytes[1..]);
      assert (buf + [bytes[0]]) + bytes[1..] == buf + bytes;
    }
  }

  /** The byte that fills the buffer. */
  lemma LastByte(mode: Mode, buf: seq<byte>, target: nat, b: byte)
    requires WellFormed(mode, Collecting(buf, target)) && |buf| + 1 == target
    ensures HEADER_SIZE <= target && Step(mode, Collecting(buf, target), b) == Complete(mode, buf + [b])
  {
  }

  lemma RunCons(mode: Mode, s: Scan, bytes: seq<byte>)
    requires WellFormed(mode, s) && bytes != []
    ensures var first := Step(mode, s, bytes[0]);
            Run(mode, s, bytes) == After(first.1, Run(mode, first.0, bytes[1..]))
  {
  }

  /** Filling the buffer, and past it. */
  lemma RunFilled(mode: Mode, buf: seq<byte>, target: nat, bytes: seq<byte>)
    requires WellFormed(mode, Collecting(buf, target)) && |buf| < target <= |buf| + |bytes|
    ensures var take := target - |buf|;
            HEADER_SIZE <= target &&
            var done := Complete(mode, buf + bytes[..take]);
            WellFormed(mode, done.0) &&
            Run(mode, Collecting(buf, target), bytes) == After(done.1, Run(mode, done.0, bytes[take..]))
  {
    hide WellFormed, Step, Run, Complete;
    var take := target - |buf|;
    var head, tail := bytes[..take - 1], bytes[take - 1..];
    RunGrowing(mode, buf, target, head);
    RunConcat(mode, Collecting(buf, target), head, tail);
    assert bytes == head + tail;
    LastByte(mode, buf + head, target, tail[0]);
    assert (buf + head) + [tail[0]] == buf + bytes[..take];
    RunCons(mode, Collecting(buf + head, target), tail);
    assert tail[1..] == bytes[take..];
  }

  lemma FilledTarget(mode: Mode, buf: seq<byte>, target: nat)
    requires WellFormed(mode, Collecting(buf, target))
    ensures HEADER_SIZE <= target && (target == HEADER_SIZE <==> |buf| < HEADER_SIZE)
  {
  }

  /** A header that lies within the slice. */
  lemma RunHeader(mode: Mode, bytes: seq<byte>)
    requires |bytes| >= HEADER_SIZE && bytes[0] != STUFFING_BYTE
    ensures var r := Headed(mode, bytes[..HEADER_SIZE], false);
            WellFormed(mode, r.0) && Run(mode, Idle, bytes) == After(r.1, Run(mode, r.0, bytes[HEADER_SIZE..]))
  {
    var s1 := Header([bytes[0]]);
    var s2 := Header([bytes[0], bytes[1]]);
    assert bytes[..HEADER_SIZE] == [bytes[0], bytes[1]] + [bytes[2]];
    assert Step(mode, Idle, bytes[0]) == (s1, []);
    assert [bytes[0]] + [bytes[1]] == [bytes[0], bytes[1]];
    assert Step(mode, s1, bytes[1]) == (s2, []);
    assert bytes[1..][1..] == bytes[2..] && bytes[2..][1..] == bytes[3..];
    var r := Step(mode, s2, bytes[2]);
    assert Run(mode, s2, bytes[2..]) == After(r.1, Run(mode, r.0, bytes[3..]));
    assert Run(mode, s1, bytes[1..]) == Run(mode, s2, bytes[2..]);
  }

  /** Stuffing where a section could start. */
  lemma RunStuffing(mode: Mode, bytes: seq<byte>)
    requires bytes != [] && bytes[0] == STUFFING_BYTE
    ensures Run(mode, Idle, bytes) == (Stuffed, [])
  {
    RunStuffed(mode, bytes[1..]);
  }

  /** A rejected section whose header lies within the slice. */
  lemma RunRejected(mode: Mode, bytes: seq<byte>)
    requires |bytes| >= HEADER_SIZE && bytes[0] != STUFFING_BYTE
    requires Verdict(mode, ParseHeader(bytes[..HEADER_SIZE])).Some?
    ensures var header := ParseHeader(bytes[..HEADER_SIZE]);
            var total := HEADER_SIZE + header.length;
            var problem := [Problem(Verdict(mode, header).value)];
            if total <= |bytes|
            then Run(mode, Idle, bytes) == After(problem, Run(mode, Idle, bytes[total..]))
            else WellFormed(mode, Ignoring(total - |bytes|)) && Run(mode, Idle, bytes) == After(problem, (Ignoring(total - |bytes|), []))
  {
    hide Step, Run, Verdict, ParseHeader;
    RunHeader(mode, bytes);
    var header := ParseHeader(bytes[..HEADER_SIZE]);
    var total := HEADER_SIZE + header.length;
    RunIgnoring(mode, header.length, bytes[HEADER_SIZE..]);
    if total <= |bytes| {
      assert bytes[HEADER_SIZE..][header.length..] == bytes[total..];
    }
  }

  /** A valid header within the slice: the section is delivered whole, or its bytes kept. */
  lemma RunAccepted(mode: Mode, bytes: seq<byte>)
    requires |bytes| >= HEADER_SIZE && bytes[0] != STUFFING_BYTE
    requires Verdict(mode, ParseHeader(bytes[..HEADER_SIZE])) == None
    ensures var header := ParseHeader(bytes[..HEADER_SIZE]);
            var total := HEADER_SIZE + header.length;
            if total <= |bytes|
            then Run(mode, Idle, bytes) == After([Deliver(header, bytes[..total])], Run(mode, Idle, bytes[total..]))
            else WellFormed(mode, Collecting(bytes, total)) && Run(mode, Idle, bytes) == (Collecting(bytes, total), [])
  {
    hide Step, Run, Verdict, ParseHeader;
    RunHeader(mode, bytes);
    var head, rest := bytes[..HEADER_SIZE], bytes[HEADER_SIZE..];
    var header := ParseHeader(head);
    var total := HEADER_SIZE + header.length;
    assert bytes == head + rest;
    if header.length == 0 {
      assert bytes[..total] == head;
    } else if |bytes| < total {
      RunGrowing(mode, head, total, rest);
    } else {
      RunFilled(mode, head, total, rest);
      assert head + rest[..header.length] == bytes[..total];
      assert bytes[..total][..HEADER_SIZE] == head;
      assert rest[header.length..] == bytes[total..];
    }
  }

  /** A header cut short by the end of the slice. */
  lemma RunShortHeader(mode: Mode, bytes: seq<byte>)
    requires 1 <= |bytes| < HEADER_SIZE && bytes[0] != STUFFING_BYTE
    ensures Run(mode, Idle, bytes) == (Header(bytes), [])
  {
    var s1 := Header([bytes[0]]);
    assert Step(mode, Idle, bytes[0]) == (s1, []);
    if |bytes| == 2 {
      assert bytes == [bytes[0]] + [bytes[1]];
      assert Step(mode, s1, bytes[1]) == (Header(bytes), []);
      assert Run(mode, s1, bytes[1..]) == (Header(bytes), []);
    } else {
      assert bytes == [bytes[0]];
    }
  }
}
