/** What feeding slices to the section framer guarantees: they may be cut anywhere, and every
    byte is accounted for. */
module SectionTheorems {
  import opened Bytes
  import opened Sections

  // ----- where a slice ends does not matter -----

  /** A rejected empty section leaves `Ignoring(0)` if its header was split and `Idle` if not;
      `feed` treats the two alike. */
  function Norm(s: Scan): Scan {
    if s == Ignoring(0) then Idle else s
  }

  /** States from which every further byte has the same effect. */
  ghost predicate Alike(s: Scan, t: Scan) {
    || s == t
    || (s.Header? && t == Collecting(s.h, HEADER_SIZE))
    || (s == Idle && t == Ignoring(0))
  }

  lemma StepAlike(mode: Mode, s: Scan, t: Scan, b: byte)
    requires WellFormed(mode, s) && WellFormed(mode, t) && Alike(s, t)
    ensures Alike(Step(mode, s, b).0, Step(mode, t, b).0)
    ensures Step(mode, s, b).1 == Step(mode, t, b).1
  {
    hide Verdict, ParseHeader;
  }

  lemma {:induction false} RunAlike(mode: Mode, s: Scan, t: Scan, bytes: seq<byte>)
    requires WellFormed(mode, s) && WellFormed(mode, t) && Alike(s, t)
    ensures Alike(Run(mode, s, bytes).0, Run(mode, t, bytes).0)
    ensures Run(mode, s, bytes).1 == Run(mode, t, bytes).1
    decreases |bytes|
  {
    hide Step, WellFormed, Alike;
    if bytes != [] {
      StepAlike(mode, s, t, bytes[0]);
      RunAlike(mode, Step(mode, s, bytes[0]).0, Step(mode, t, bytes[0]).0, bytes[1..]);
    }
  }

  /** Feeding `a` and then `b` is feeding them joined, unless `a` reaches stuffing; and then
      `b` would have been dropped with it. */
  lemma FeedSplit(mode: Mode, s: Scan, a: seq<byte>, b: seq<byte>)
    requires Settled(mode, s)
    ensures Run(mode, s, a).0 != Stuffed ==>
              var first := Feed(mode, s, a);
              var second := Feed(mode, first.0, b);
              var joined := Feed(mode, s, a + b);
              joined.1 == first.1 + second.1 && Norm(joined.0) == Norm(second.0)
    ensures Run(mode, s, a).0 == Stuffed ==> Feed(mode, s, a + b) == Feed(mode, s, a)
  {
    hide Step, WellFormed, Run;
    var mid := Run(mode, s, a);
    RunConcat(mode, s, a, b);
    if mid.0 == Stuffed {
      RunStuffed(mode, b);
      assert mid.1 + [] == mid.1;
    } else {
      assert WellFormed(mode, EndSlice(mid.0)) by { SettledAfter(mode, mid.0); }
      RunAlike(mode, mid.0, EndSlice(mid.0), b);
      var r := Run(mode, mid.0, b);
      assert mid.1 == [] ==> mid.1 + r.1 == r.1;
    }
  }

  lemma SettledAfter(mode: Mode, s: Scan)
    requires WellFormed(mode, s)
    ensures Settled(mode, EndSlice(s))
  {
  }

  // ----- every byte is accounted for -----

  /** What can become of a stretch of the byte stream. */
  datatype Piece =
    | Section(data: seq<byte>)
    | Rejected(data: seq<byte>, error: FramerError)
    | Cut(data: seq<byte>, error: FramerError, missing: nat)
    | Unfinished(data: seq<byte>)
    | Filler(data: seq<byte>)
    | Skipped(data: seq<byte>, missing: nat)

  /** The grammar of a slice that begins between sections: sections one after another, then
      stuffing or an incomplete one. */
  function Parse(mode: Mode, bytes: seq<byte>): seq<Piece>
    decreases |bytes|
  {
    if bytes == [] then []
    else if bytes[0] == STUFFING_BYTE then [Filler(bytes)]
    else if |bytes| < HEADER_SIZE then [Unfinished(bytes)]
    else
      var header := ParseHeader(bytes[..HEADER_SIZE]);
      var total := HEADER_SIZE + header.length;
      match Verdict(mode, header)
      case Some(e) =>
        if total <= |bytes| then [Rejected(bytes[..total], e)] + Parse(mode, bytes[total..])
        else [Cut(bytes, e, total - |bytes|)]
      case None =>
        if total <= |bytes| then [Section(bytes[..total])] + Parse(mode, bytes[total..])
        else [Unfinished(bytes)]
  }

  function Unparse(pieces: seq<Piece>): seq<byte> {
    if pieces == [] then [] else pieces[0].data + Unparse(pieces[1..])
  }

  function EventOf(p: Piece): seq<Event> {
    match p
    case Section(data) => if |data| >= HEADER_SIZE then [Deliver(ParseHeader(data[..HEADER_SIZE]), data)] else []
    case Rejected(_, e) => [Problem(e)]
    case Cut(_, e, _) => [Problem(e)]
    case _ => []
  }

  function EventsOf(pieces: seq<Piece>): seq<Event> {
    if pieces == [] then [] else EventOf(pieces[0]) + EventsOf(pieces[1..])
  }

  /** The bytes a framer still holds. */
  function Held(s: Scan): seq<byte> {
    if s.Collecting? then s.buf else []
  }

  /** What the last piece leaves to be done: a section to finish, or one to finish skipping. */
  function StateBy(pieces: seq<Piece>): Scan {
    if pieces == [] then Idle
    else
      match pieces[|pieces| - 1]
      case Unfinished(data) =>
        Collecting(data, if |data| < HEADER_SIZE then HEADER_SIZE else HEADER_SIZE + ParseHeader(data[..HEADER_SIZE]).length)
      case Cut(_, _, missing) => Ignoring(missing)
      case Skipped(_, missing) => if missing == 0 then Idle else Ignoring(missing)
      case _ => Idle
  }

  /** The pieces that a slice completes: bytes held from before belong to the first of them. */
  function Account(mode: Mode, s: Scan, bytes: seq<byte>): seq<Piece> {
    match s
    case Collecting(buf, _) => Parse(mode, buf + bytes)
    case Ignoring(n) =>
      if n <= |bytes| then [Skipped(bytes[..n], 0)] + Parse(mode, bytes[n..]) else [Skipped(bytes, n - |bytes|)]
    case _ => Parse(mode, bytes)
  }

  lemma {:induction false} ParseKeeps(mode: Mode, bytes: seq<byte>)
    ensures Unparse(Parse(mode, bytes)) == bytes
    decreases |bytes|
  {
    hide Verdict, ParseHeader;
    if |bytes| >= HEADER_SIZE && bytes[0] != STUFFING_BYTE {
      var total := HEADER_SIZE + ParseHeader(bytes[..HEADER_SIZE]).length;
      if total <= |bytes| {
        ParseKeeps(mode, bytes[total..]);
        assert bytes == bytes[..total] + bytes[total..];
      }
    }
  }

  lemma ConsPieces(p: Piece, rest: seq<Piece>)
    ensures Unparse([p] + rest) == p.data + Unparse(rest)
    ensures EventsOf([p] + rest) == EventOf(p) + EventsOf(rest)
    ensures StateBy([p] + rest) == if rest == [] then StateBy([p]) else StateBy(rest)
  {
    assert ([p] + rest)[1..] == rest;
  }

  lemma OnePiece(p: Piece)
    ensures EventsOf([p]) == EventOf(p) && Unparse([p]) == p.data
  {
    assert EventOf(p) + [] == EventOf(p) && p.data + [] == p.data;
  }

  ghost predicate ReadsAs(r: Outcome, pieces: seq<Piece>) {
    r.1 == EventsOf(pieces) && Norm(EndSlice(r.0)) == StateBy(pieces)
  }

  lemma ReadsPiece(p: Piece, rest: seq<Piece>, r: Outcome)
    requires StateBy([p]) == Idle && ReadsAs(r, rest)
    ensures ReadsAs(After(EventOf(p), r), [p] + rest)
  {
    ConsPieces(p, rest);
    assert EventOf(p) == [] ==> EventOf(p) + r.1 == r.1;
  }

  /** The machine reads a slice as the grammar does. */
  lemma {:induction false} RunParses(mode: Mode, bytes: seq<byte>)
    ensures ReadsAs(Run(mode, Idle, bytes), Parse(mode, bytes))
    decreases |bytes|
  {
    hide Verdict, ParseHeader, Step, Run, EventsOf;
    if bytes == [] {
      RunEmpty(mode, Idle);
      assert EventsOf([]) == [] by { NoPieces(); }
    } else if bytes[0] == STUFFING_BYTE {
      RunStuffing(mode, bytes);
      OnePiece(Filler(bytes));
    } else if |bytes| < HEADER_SIZE {
      RunShortHeader(mode, bytes);
      OnePiece(Unfinished(bytes));
    } else {
      RunParsesSection(mode, bytes);
    }
  }

  lemma NoPieces()
    ensures EventsOf([]) == []
  {
  }

  lemma {:induction false} RunParsesSection(mode: Mode, bytes: seq<byte>)
    requires |bytes| >= HEADER_SIZE && bytes[0] != STUFFING_BYTE
    ensures ReadsAs(Run(mode, Idle, bytes), Parse(mode, bytes))
    decreases |bytes|, 0
  {
    hide Verdict, ParseHeader, Step, Run, EventsOf, ReadsAs;
    var header := ParseHeader(bytes[..HEADER_SIZE]);
    var total := HEADER_SIZE + header.length;
    var verdict := Verdict(mode, header);
    if verdict.Some? {
      RunRejected(mode, bytes);
    } else {
      RunAccepted(mode, bytes);
    }
    if total <= |bytes| {
      RunParses(mode, bytes[total..]);
      assert bytes[..total][..HEADER_SIZE] == bytes[..HEADER_SIZE];
      var p := if verdict.Some? then Rejected(bytes[..total], verdict.value) else Section(bytes[..total]);
      ReadsPiece(p, Parse(mode, bytes[total..]), Run(mode, Idle, bytes[total..]));
    } else {
      var p := if verdict.Some? then Cut(bytes, verdict.value, total - |bytes|) else Unfinished(bytes);
      OnePiece(p);
      assert ReadsAs(Run(mode, Idle, bytes), [p]) by { ReadsLast(Run(mode, Idle, bytes), p); }
    }
  }

  lemma ReadsLast(r: Outcome, p: Piece)
    requires r.1 == EventOf(p) && Norm(EndSlice(r.0)) == StateBy([p])
    ensures ReadsAs(r, [p])
  {
    OnePiece(p);
  }

  /** A section in progress is what its bytes alone would have left. */
  lemma HeldRun(mode: Mode, buf: seq<byte>, target: nat)
    requires WellFormed(mode, Collecting(buf, target))
    ensures Run(mode, Idle, buf).1 == [] && Alike(Run(mode, Idle, buf).0, Collecting(buf, target))
  {
    hide Step, Run, Verdict, ParseHeader;
    if |buf| < HEADER_SIZE {
      RunShortHeader(mode, buf);
    } else {
      RunAccepted(mode, buf);
    }
  }

  lemma CollectingAccounted(mode: Mode, buf: seq<byte>, target: nat, bytes: seq<byte>)
    requires WellFormed(mode, Collecting(buf, target))
    ensures ReadsAs(Run(mode, Collecting(buf, target), bytes), Parse(mode, buf + bytes))
  {
    hide Step, Run, Parse, Verdict, ParseHeader, EventsOf;
    RunParses(mode, buf + bytes);
    HeldRun(mode, buf, target);
    RunConcat(mode, Idle, buf, bytes);
    RunAlike(mode, Run(mode, Idle, buf).0, Collecting(buf, target), bytes);
    assert [] + Run(mode, Collecting(buf, target), bytes).1 == Run(mode, Collecting(buf, target), bytes).1;
  }

  lemma IgnoringAccounted(mode: Mode, n: nat, bytes: seq<byte>)
    requires n <= 4095
    ensures ReadsAs(Run(mode, Ignoring(n), bytes), Account(mode, Ignoring(n), bytes))
    ensures Unparse(Account(mode, Ignoring(n), bytes)) == bytes
  {
    hide Step, Run, Parse, Verdict, ParseHeader, EventsOf, Unparse, ReadsAs;
    RunIgnoring(mode, n, bytes);
    RunEmpty(mode, Ignoring(n));
    if n <= |bytes| {
      var rest := bytes[n..];
      ParseKeeps(mode, rest);
      RunParses(mode, rest);
      RunEmpty(mode, Idle);
      ConsPieces(Skipped(bytes[..n], 0), Parse(mode, rest));
      ReadsPiece(Skipped(bytes[..n], 0), Parse(mode, rest), Run(mode, Idle, rest));
      assert bytes == bytes[..n] + rest;
      if n == 0 {
        assert rest == bytes;
        NothingSkipped(mode, bytes);
      }
    } else {
      OnePiece(Skipped(bytes, n - |bytes|));
      ReadsLast(Run(mode, Ignoring(n), bytes), Skipped(bytes, n - |bytes|));
    }
  }

  lemma NothingSkipped(mode: Mode, bytes: seq<byte>)
    ensures Norm(EndSlice(Run(mode, Ignoring(0), bytes).0)) == Norm(EndSlice(Run(mode, Idle, bytes).0))
    ensures Run(mode, Ignoring(0), bytes).1 == Run(mode, Idle, bytes).1
    ensures ReadsAs(Run(mode, Idle, bytes), [Skipped(bytes[..0], 0)] + Parse(mode, bytes[0..]))
        ==> ReadsAs(Run(mode, Ignoring(0), bytes), [Skipped(bytes[..0], 0)] + Parse(mode, bytes[0..]))
  {
    hide Step, Run, Parse, EventsOf;
    RunIgnoring(mode, 0, bytes);
    RunEmpty(mode, Ignoring(0));
    RunEmpty(mode, Idle);
  }

  /** Conservation: the bytes held and the bytes fed are, in order and without overlap, the
      delivered sections, the rejected ones, the skipped and stuffing bytes, and those held
      afterwards; the events and the state left behind are those of the pieces. */
  lemma EveryByteAccounted(mode: Mode, s: Scan, bytes: seq<byte>)
    requires Settled(mode, s)
    ensures Unparse(Account(mode, s, bytes)) == Held(s) + bytes
    ensures Feed(mode, s, bytes).1 == EventsOf(Account(mode, s, bytes))
    ensures Norm(Feed(mode, s, bytes).0) == StateBy(Account(mode, s, bytes))
  {
    hide Step, Run, Parse, Verdict, ParseHeader, EventsOf, Unparse, StateBy;
    match s {
      case Idle =>
        ParseKeeps(mode, bytes);
        RunParses(mode, bytes);
        assert [] + bytes == bytes;
      case Collecting(buf, target) =>
        ParseKeeps(mode, buf + bytes);
        CollectingAccounted(mode, buf, target, bytes);
      case Ignoring(n) =>
        IgnoringAccounted(mode, n, bytes);
        assert [] + bytes == bytes;
    }
  }
}
