/** The slice-based section framer of src/psi/mod.rs: a growing buffer, a state with a
    target or a count, and a fast path for sections that lie within one slice. */
module Framers {
  import opened Bytes
  import opened Packets
  import opened Sections

  /** The framer between two packets. */
  datatype Link = Link(scan: Scan, synced: bool)

  ghost predicate Ready(mode: Mode, l: Link) {
    Settled(mode, l.scan) && (!l.synced ==> l.scan == Idle)
  }

  type LinkOutcome = (Link, seq<Event>)

  const Fresh := Link(Idle, false)

  /** `reset` keeps `synced`. */
  function Discard(l: Link, error: FramerError): LinkOutcome {
    (Link(Idle, l.synced), [Problem(error), Reset])
  }

  /** The bytes before the pointer continue a section in progress, or are dropped. */
  function BeforePointer(mode: Mode, l: Link, bytes: seq<byte>): (r: LinkOutcome)
    requires Ready(mode, l)
    ensures Ready(mode, r.0)
  {
    if l.synced && bytes != [] && l.scan != Idle then
      var r := Feed(mode, l.scan, bytes);
      (Link(r.0, l.synced), r.1)
    else (l, [])
  }

  /** After them no section may be in progress. */
  function AtPointer(l: Link): LinkOutcome {
    if l.scan == Idle then (l, []) else Discard(l, ExtraDataAfterSectionComplete)
  }

  function StartPayload(mode: Mode, l: Link, payload: seq<byte>): (r: LinkOutcome)
    requires Ready(mode, l)
    ensures Ready(mode, r.0)
  {
    if payload == [] then Discard(l, SectionHeaderTooShort)
    else
      var pointer := payload[0] as nat;
      var data := payload[1..];
      if pointer > |data| then Discard(l, PsiPointerOutOfBounds)
      else
        var before := BeforePointer(mode, l, data[..pointer]);
        var at := AtPointer(before.0);
        var rest := Feed(mode, Idle, data[pointer..]);
        (Link(rest.0, true), before.1 + at.1 + rest.1)
  }

  function ContinuePayload(mode: Mode, l: Link, payload: seq<byte>): (r: LinkOutcome)
    requires Ready(mode, l)
    ensures Ready(mode, r.0)
  {
    if !l.synced then (l, [])
    else if l.scan == Idle then (l, [Problem(ExtraDataAfterSectionComplete)])
    else
      var r := Feed(mode, l.scan, payload);
      (Link(r.0, true), r.1)
  }

  /** What `consume` does with one packet. */
  function Consume(mode: Mode, l: Link, unitStart: bool, payload: Payload): (r: LinkOutcome)
    requires Ready(mode, l)
    ensures Ready(mode, r.0)
  {
    match payload
    case Err(_) => (l, [Problem(MalformedPayload)])
    case Ok(None) => (l, [Problem(NoPayloadInPsiPacket)])
    case Ok(Some(bytes)) => if unitStart then StartPayload(mode, l, bytes) else ContinuePayload(mode, l, bytes)
  }

  datatype FramerState = Waiting | Filling(target: nat) | Skipping(remaining: nat)

  class Framer {
    const mode: Mode
    var buf: seq<byte>
    var state: FramerState
    var synced: bool

    ghost function ScanOf(): Scan
      reads this
    {
      match state
      case Waiting => Idle
      case Filling(target) => Collecting(buf, target)
      case Skipping(remaining) => Ignoring(remaining)
    }

    ghost function LinkOf(): Link
      reads this
    {
      Link(ScanOf(), synced)
    }

    ghost predicate Valid()
      reads this
    {
      Ready(mode, LinkOf()) && (!state.Filling? ==> buf == [])
    }

    constructor (mode: Mode)
      ensures Valid() && this.mode == mode && LinkOf() == Fresh
    {
      this.mode := mode;
      buf := [];
      state := Waiting;
      synced := false;
    }

    /** `reset`: discard the section in progress, but not the fact that a start was seen. */
    method ResetState() returns (out: seq<Event>)
      requires Valid()
      modifies this`buf, this`state
      ensures Valid() && LinkOf() == Link(Idle, synced) && out == [Reset]
    {
      buf := [];
      state := Waiting;
      out := [Reset];
    }

    /** One turn of the loop of `feed` between sections: deliver or reject a section that
        starts here, or keep its bytes; `done` when the slice is used up. */
    method WaitingTurn(bytes: seq<byte>) returns (rest: seq<byte>, out: seq<Event>, done: bool)
      requires Valid() && synced && state.Waiting? && bytes != []
      modifies this`buf, this`state
      ensures Valid()
      ensures done ==> (ScanOf(), out) == Feed(mode, Idle, bytes)
      ensures !done ==> |rest| < |bytes| && Run(mode, Idle, bytes) == After(out, Run(mode, ScanOf(), rest))
    {
      hide Step, Run, Verdict, ParseHeader;
      rest, out, done := [], [], true;
      if bytes[0] == STUFFING_BYTE {
        RunStuffing(mode, bytes);
        return;
      }
      if |bytes| < HEADER_SIZE {
        // not enough for the common header
        RunShortHeader(mode, bytes);
        buf := bytes;
        state := Filling(HEADER_SIZE);
        return;
      }
      var header := ParseHeader(bytes[..HEADER_SIZE]);
      var total := HEADER_SIZE + header.length;
      var verdict := Verdict(mode, header);
      if verdict.Some? {
        // skip the body of the rejected section
        RunRejected(mode, bytes);
        out, done := [Problem(verdict.value)], false;
        var skip := if total <= |bytes| then total else |bytes|;
        rest := bytes[skip..];
        if total > skip {
          state := Skipping(total - skip);
        }
        RunEmpty(mode, ScanOf());
      } else {
        RunAccepted(mode, bytes);
        if |bytes| >= total {
          // the whole section is in the caller's slice
          out, rest, done := [Deliver(header, bytes[..total])], bytes[total..], false;
        } else {
          buf := bytes;
          state := Filling(total);
        }
      }
    }

    /** One turn with a section in progress: fill the buffer up to its target, which is
        first the header and then the whole section. */
    method FillingTurn(bytes: seq<byte>) returns (rest: seq<byte>, out: seq<Event>)
      requires Valid() && synced && state.Filling? && bytes != []
      modifies this`buf, this`state
      ensures Valid()
      ensures |rest| < |bytes| && Run(mode, old(ScanOf()), bytes) == After(out, Run(mode, ScanOf(), rest))
    {
      hide Step, Run, Verdict, ParseHeader;
      out := [];
      var target := state.target;
      FilledTarget(mode, buf, target);
      var needed := target - |buf|;
      var take := if needed <= |bytes| then needed else |bytes|;
      rest := bytes[take..];
      if needed > |bytes| {
        assert bytes[..take] == bytes;
        RunGrowing(mode, buf, target, bytes);
        RunEmpty(mode, Collecting(buf + bytes, target));
      } else {
        RunFilled(mode, buf, target, bytes);
      }
      buf := buf + bytes[..take];
      if |buf| == target {
        var header := ParseHeader(buf[..HEADER_SIZE]);
        if target == HEADER_SIZE {
          assert buf[..HEADER_SIZE] == buf;
          var verdict := Verdict(mode, header);
          if verdict.Some? {
            out := [Problem(verdict.value)];
            buf := [];
            state := Skipping(header.length);
          } else if header.length == 0 {
            // an empty compact section: the header is the whole of it
            out := [Deliver(header, buf)];
            buf := [];
            state := Waiting;
          } else {
            state := Filling(HEADER_SIZE + header.length);
          }
        } else {
          out := [Deliver(header, buf)];
          buf := [];
          state := Waiting;
        }
      }
    }

    /** One turn past a rejected section; it takes no byte when none remained to skip. */
    method SkippingTurn(bytes: seq<byte>) returns (rest: seq<byte>)
      requires Valid() && synced && state.Skipping? && bytes != []
      modifies this`buf, this`state
      ensures Valid() && !(state == Skipping(0))
      ensures |rest| <= |bytes| && (old(state) != Skipping(0) ==> |rest| < |bytes|)
      ensures Run(mode, old(ScanOf()), bytes) == Run(mode, ScanOf(), rest)
    {
      hide Step, Run;
      var remaining := state.remaining;
      RunIgnoring(mode, remaining, bytes);
      var drop := if remaining <= |bytes| then remaining else |bytes|;
      rest := bytes[drop..];
      if drop == remaining {
        state := Waiting;
      } else {
        state := Skipping(remaining - drop);
        RunEmpty(mode, ScanOf());
      }
    }

    /** `feed`: agrees with the machine that takes one byte at a time, although it delivers
        sections without copying them when it can, and copies slices when it cannot. */
    method FeedSlice(slice: seq<byte>) returns (out: seq<Event>)
      requires Valid() && synced
      modifies this`buf, this`state
      ensures Valid() && (ScanOf(), out) == Feed(mode, old(ScanOf()), slice)
    {
      hide WellFormed, Run;
      var bytes := slice;
      out := [];
      while bytes != []
        invariant Valid()
        invariant Run(mode, old(ScanOf()), slice) == After(out, Run(mode, ScanOf(), bytes))
        decreases |bytes|, if state == Skipping(0) then 1 else 0
      {
        match state
        case Waiting =>
          var rest, emitted, done := WaitingTurn(bytes);
          if done {
            FeedAfter(mode, old(ScanOf()), slice, out, Idle, bytes);
            out := out + emitted;
            return;
          }
          AfterAfter(out, emitted, Run(mode, ScanOf(), rest));
          out, bytes := out + emitted, rest;
        case Filling(_) =>
          var rest, emitted := FillingTurn(bytes);
          AfterAfter(out, emitted, Run(mode, ScanOf(), rest));
          out, bytes := out + emitted, rest;
        case Skipping(_) =>
          bytes := SkippingTurn(bytes);
      }
      RunEmpty(mode, ScanOf());
      assert out + [] == out;
    }
  
    /** `consume`: one packet. */
    method ConsumePacket(unitStart: bool, payload: Payload) returns (out: seq<Event>)
      requires Valid()
      modifies this
      ensures Valid() && (LinkOf(), out) == Consume(mode, old(LinkOf()), unitStart, payload)
    {
      hide Feed, WellFormed;
      out := [];
      match payload
      case Err(_) => out := [Problem(MalformedPayload)];
      case Ok(None) => out := [Problem(NoPayloadInPsiPacket)];
      case Ok(Some(bytes)) =>
        if unitStart {
          if bytes == [] {
            var discarded := ResetState();
            out := [Problem(SectionHeaderTooShort)] + discarded;
            assert out == Discard(old(LinkOf()), SectionHeaderTooShort).1;
            return;
          }
          var pointer := bytes[0] as nat;
          var data := bytes[1..];
          if pointer > |data| {
            var discarded := ResetState();
            out := [Problem(PsiPointerOutOfBounds)] + discarded;
            assert out == Discard(old(LinkOf()), PsiPointerOutOfBounds).1;
            return;
          }
          if synced && pointer > 0 && !state.Waiting? {
            out := FeedSlice(data[..pointer]);
          }
          ghost var before := out;
          if !state.Waiting? {
            var discarded := ResetState();
            out := out + ([Problem(ExtraDataAfterSectionComplete)] + discarded);
            assert out == before + Discard(old(LinkOf()), ExtraDataAfterSectionComplete).1;
          } else {
            assert out + [] == out;
          }
          synced := true;
          var rest := FeedSlice(data[pointer..]);
          out := out + rest;
        } else if synced {
          if state.Waiting? {
            out := [Problem(ExtraDataAfterSectionComplete)];
          } else {
            out := FeedSlice(bytes);
          }
        }
    }
  }

  lemma FeedAfter(mode: Mode, s: Scan, slice: seq<byte>, out: seq<Event>, t: Scan, bytes: seq<byte>)
    requires WellFormed(mode, s) && WellFormed(mode, t)
    requires Run(mode, s, slice) == After(out, Run(mode, t, bytes))
    ensures var last := Feed(mode, t, bytes);
            Feed(mode, s, slice) == (last.0, out + last.1)
  {
    hide WellFormed, Run;
    assert out == [] ==> out + Run(mode, t, bytes).1 == Run(mode, t, bytes).1;
  }
}
