/** Which sections are delivered, and which packets the framer refuses, said of the bytes
    themselves: the limits of section 2.4.4 of ISO/IEC 13818-1 as the source applies them. */
module SectionRules {
  import opened Bytes
  import opened Packets
  import opened Sections
  import opened Framers
  import opened Packetiser
  import opened PrePointer
  import opened Tables

  // ----- headers -----

  /** The length that a header declares. */
  function Declared(h: seq<byte>): nat
    requires |h| == 3
  {
    (h[1] & 0x0f) as nat * 256 + h[2] as nat
  }

  lemma HeaderFields(h: seq<byte>)
    requires |h| == 3
    ensures ParseHeader(h) == SectionHeader(h[0], h[1] & 0x80 != 0, h[1] & 0x40 != 0, Declared(h))
  {
    LengthOf(h[1], h[2]);
  }

  /** In the section syntax: the syntax bit, and a length from 5 to 4093; and what is wrong with
      any other header, by the first of the checks that it fails. */
  lemma SectionHeaderRule(h: seq<byte>)
    requires |h| == 3
    ensures Verdict(SectionSyntax, ParseHeader(h)) == None <==> h[1] & 0x80 != 0 && 5 <= Declared(h) <= 4093
    ensures h[1] & 0x80 == 0 ==> Verdict(SectionSyntax, ParseHeader(h)) == Some(UnexpectedSectionSyntaxIndicator(h[0]))
    ensures h[1] & 0x80 != 0 && Declared(h) > 4093 ==>
              Verdict(SectionSyntax, ParseHeader(h)) == Some(PsiSectionTooLarge(h[0], Declared(h), 4093))
    ensures h[1] & 0x80 != 0 && Declared(h) < 5 ==>
              Verdict(SectionSyntax, ParseHeader(h)) == Some(SectionDataTooShort(h[0], 3 + Declared(h), 8))
  {
    hide ParseHeader, Declared;
    HeaderFields(h);
  }

  /** In the compact syntax: no syntax bit, and a length of at most 4093. */
  lemma CompactHeaderRule(h: seq<byte>)
    requires |h| == 3
    ensures Verdict(CompactSyntax, ParseHeader(h)) == None <==> h[1] & 0x80 == 0 && Declared(h) <= 4093
    ensures h[1] & 0x80 != 0 ==> Verdict(CompactSyntax, ParseHeader(h)) == Some(UnexpectedSectionSyntaxIndicator(h[0]))
    ensures h[1] & 0x80 == 0 && Declared(h) > 4093 ==>
              Verdict(CompactSyntax, ParseHeader(h)) == Some(PsiSectionTooLarge(h[0], Declared(h), 4093))
  {
    hide ParseHeader, Declared;
    HeaderFields(h);
  }

  // ----- sections from their fields -----

  datatype Plain = Plain(tableId: byte, syntax: bool, private_: bool, reserved: byte, body: seq<byte>)

  /** Any table but stuffing, and any body whose length fits the 12 bits. */
  ghost predicate Writable(x: Plain) {
    x.tableId != 0xff && |x.body| < 4096
  }

  function HighFlags(x: Plain): byte {
    (if x.syntax then 0x80 else 0) | (if x.private_ then 0x40 else 0) | (x.reserved & 0x30)
  }

  function EncodeSection(x: Plain): (s: seq<byte>)
    requires |x.body| < 4096
    ensures |s| == 3 + |x.body|
  {
    [x.tableId, Under(ByteOf(|x.body| / 256), 0x0f, HighFlags(x)), ByteOf(|x.body| % 256)] + x.body
  }

  lemma HighFlagsRead(x: Plain, hi: byte)
    ensures var v := Under(hi, 0x0f, HighFlags(x)); (v & 0x80 != 0 <==> x.syntax) && (v & 0x40 != 0 <==> x.private_)
  {
  }

  lemma EncodedSection(x: Plain)
    requires |x.body| < 4096
    ensures ParseHeader(EncodeSection(x)[..3]) == SectionHeader(x.tableId, x.syntax, x.private_, |x.body|)
  {
    hide Under, ByteOf, HighFlags, Length12;
    HighFlagsRead(x, ByteOf(|x.body| / 256));
    LengthRoundTrip(|x.body|, HighFlags(x));
  }

  /** What a section should come to. */
  function Outcome(mode: Mode, x: Plain): Event
    requires |x.body| < 4096
  {
    if x.syntax != (mode == SectionSyntax) then Problem(UnexpectedSectionSyntaxIndicator(x.tableId))
    else if |x.body| > 4093 then Problem(PsiSectionTooLarge(x.tableId, |x.body|, 4093))
    else if mode == SectionSyntax && |x.body| < 5 then Problem(SectionDataTooShort(x.tableId, 3 + |x.body|, 8))
    else Deliver(SectionHeader(x.tableId, x.syntax, x.private_, |x.body|), EncodeSection(x))
  }

  lemma EncodedTold(mode: Mode, x: Plain)
    requires Writable(x)
    ensures WholeSection(EncodeSection(x)) && Told(mode, EncodeSection(x)) == Outcome(mode, x)
  {
    hide EncodeSection, ParseHeader;
    EncodedSection(x);
    EncodedFirst(x);
  }

  lemma EncodedFirst(x: Plain)
    requires Writable(x)
    ensures EncodeSection(x)[0] == x.tableId && x.tableId != STUFFING_BYTE
  {
  }

  ghost function Encoded(xs: seq<Plain>): (ss: seq<seq<byte>>)
    requires forall x :: x in xs ==> Writable(x)
    ensures |ss| == |xs| && forall i :: 0 <= i < |xs| ==> Writable(xs[i]) && ss[i] == EncodeSection(xs[i])
  {
    seq(|xs|, i requires 0 <= i < |xs| => assert Writable(xs[i]); EncodeSection(xs[i]))
  }

  ghost function Outcomes(mode: Mode, xs: seq<Plain>): (events: seq<Event>)
    requires forall x :: x in xs ==> Writable(x)
    ensures |events| == |xs| && forall i :: 0 <= i < |xs| ==> Writable(xs[i]) && events[i] == Outcome(mode, xs[i])
  {
    seq(|xs|, i requires 0 <= i < |xs| => assert Writable(xs[i]); Outcome(mode, xs[i]))
  }

  lemma EncodedTellings(mode: Mode, xs: seq<Plain>)
    requires forall x :: x in xs ==> Writable(x)
    ensures AllWhole(Encoded(xs)) && Tellings(mode, Encoded(xs)) == Outcomes(mode, xs)
  {
    hide EncodeSection, WholeSection, Told, Outcome;
    var ss := Encoded(xs);
    forall i | 0 <= i < |xs|
      ensures WholeSection(ss[i]) && |ss[i]| >= HEADER_SIZE && Told(mode, ss[i]) == Outcome(mode, xs[i])
    {
      EncodedTold(mode, xs[i]);
      WholeIsLong(ss[i]);
    }
  }

  /** Every body of 5 to 4093 bytes in the section syntax, and of up to 4093 in the compact one,
      under any table id but 0xff, comes back with its header fields, from any packets it is
      legally cut into. */
  lemma DeframeEncoded(mode: Mode, xs: seq<Plain>, plan: seq<Chunk>)
    requires forall x :: x in xs ==>
               && x.tableId != 0xff && x.syntax == (mode == SectionSyntax)
               && |x.body| <= 4093 && (mode == SectionSyntax ==> |x.body| >= 5)
    requires LegalPlan(Sender([], 0, Encoded(xs)), plan) && Outstanding(Finally(Sender([], 0, Encoded(xs)), plan)) == []
    ensures var r := ConsumeUnits(mode, Fresh, Packetise(Sender([], 0, Encoded(xs)), plan));
            && r.0 == Link(Idle, plan != []) && |r.1| == |xs|
            && forall i :: 0 <= i < |xs| ==>
                 r.1[i] == Deliver(SectionHeader(xs[i].tableId, xs[i].syntax, xs[i].private_, |xs[i].body|), EncodeSection(xs[i]))
  {
    hide EncodeSection, WholeSection, Told, ParseHeader, Verdict, ConsumeUnits, Packetise, LegalPlan, Finally, Refused;
    var ss := Encoded(xs);
    EncodedTellings(mode, xs);
    forall s | s in ss
      ensures ValidSection(mode, s)
    {
      var i :| 0 <= i < |ss| && ss[i] == s;
      EncodedValid(mode, xs[i]);
    }
    DeframePacketised(mode, ss, plan);
    ValidTold(mode, ss);
  }

  lemma EncodedValid(mode: Mode, x: Plain)
    requires Writable(x) && Outcome(mode, x).Deliver?
    ensures ValidSection(mode, EncodeSection(x))
  {
    hide EncodeSection, ParseHeader;
    EncodedTold(mode, x);
  }

  /** Those that are refused among them are told of by their error, exactly for the harmless
      packetisations. */
  lemma DeframeEncodedMixed(mode: Mode, xs: seq<Plain>, plan: seq<Chunk>)
    requires forall x :: x in xs ==> Writable(x)
    requires LegalPlan(Sender([], 0, Encoded(xs)), plan) && Outstanding(Finally(Sender([], 0, Encoded(xs)), plan)) == []
    ensures ConsumeUnits(mode, Fresh, Packetise(Sender([], 0, Encoded(xs)), plan)).1 == Outcomes(mode, xs)
       <==> Harmless(mode, Sender([], 0, Encoded(xs)), plan)
  {
    hide ConsumeUnits, Packetise, LegalPlan, Finally, Harmless, Told, WholeSection;
    EncodedTellings(mode, xs);
    DeframeMixedExactly(mode, Encoded(xs), plan);
  }

  // ----- stuffing -----

  /** Between sections, a payload from a byte 0xff on tells nothing, and from no other byte. */
  lemma StuffingByte(mode: Mode, bytes: seq<byte>)
    requires bytes != []
    ensures Feed(mode, Idle, bytes) == (Idle, []) <==> bytes[0] == 0xff
  {
    hide Feed;
    SilentOnlyIfStuffing(mode, bytes);
  }

  // ----- packets that begin nothing -----

  /** Nothing is told of packets before the first start packet, and nothing is kept. */
  lemma {:induction false} SilentUntilStart(mode: Mode, us: seq<Unit>)
    requires forall u :: u in us ==> !u.start
    ensures ConsumeUnits(mode, Fresh, us) == (Fresh, [])
    decreases |us|
  {
    if us != [] {
      assert us[0] in us;
      SilentUntilStart(mode, us[1..]);
      assert Consume(mode, Fresh, us[0].start, Ok(Some(us[0].data))) == (Fresh, []);
      var none: seq<Event> := [];
      assert none + none == none;
    }
  }

  /** A start packet whose pointer is out of bounds loses what was in progress, with a reset, and
      nothing else; nor does it count as a start. */
  lemma BadPointer(mode: Mode, l: Link, payload: seq<byte>, later: seq<Unit>)
    requires Ready(mode, l) && payload != [] && payload[0] as nat > |payload| - 1
    ensures var rest := ConsumeUnits(mode, Link(Idle, l.synced), later);
            ConsumeUnits(mode, l, [Unit(true, payload)] + later)
            == (rest.0, [Problem(PsiPointerOutOfBounds), Reset] + rest.1)
  {
    hide ConsumeUnits;
    ConsumeCons(mode, l, Unit(true, payload), later);
  }

  /** A continuation with no section in progress is refused, and changes nothing. */
  lemma StrayContinuation(mode: Mode, payload: seq<byte>)
    ensures Consume(mode, Link(Idle, true), false, Ok(Some(payload)))
         == (Link(Idle, true), [Problem(ExtraDataAfterSectionComplete)])
  {
  }

  /** A packet without a payload, by its flag or because its adaptation field fills it, and one
      whose adaptation field is too long, are reported and change nothing. */
  lemma NothingCarried(mode: Mode, l: Link, p: Packet)
    requires Ready(mode, l)
    ensures p[3] & 0x10 == 0 || (p[3] & 0x20 != 0 && p[4] == 183) ==>
              Consume(mode, l, UnitStart(p), PayloadOf(p)) == (l, [Problem(NoPayloadInPsiPacket)])
    ensures p[3] & 0x10 != 0 && p[3] & 0x20 != 0 && p[4] > 183 ==>
              Consume(mode, l, UnitStart(p), PayloadOf(p)) == (l, [Problem(FramerError.MalformedPayload)])
  {
    PayloadBounds(p);
    LengthByte(p[4]);
  }

  lemma LengthByte(b: byte)
    ensures (b as nat == 183 <==> b == 183) && (b as nat > 183 <==> b > 183)
  {
  }

  /** A start payload of no bytes, which no packet has, loses what was in progress. */
  lemma EmptyStart(mode: Mode, l: Link)
    requires Ready(mode, l)
    ensures Consume(mode, l, true, Ok(Some([]))) == (Link(Idle, l.synced), [Problem(SectionHeaderTooShort), Reset])
  {
  }
}
