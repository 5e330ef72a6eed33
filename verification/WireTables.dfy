/** Table sections as they are sent: header, table syntax header, body, and the check word. */
module WireTables {
  import opened Bytes
  import opened Sections
  import opened Packetiser
  import opened Crc
  import opened CrcTheorems
  import opened Tables
  import opened Processors
  import opened TableProcessors

  datatype WireTable = WireTable(tableId: byte, id: (byte, byte), version: byte, body: seq<byte>)

  ghost predicate ValidWire(t: WireTable) {
    t.tableId != 0xff && t.version < 32 && |t.body| <= 4084
  }

  /** section_length: the table syntax header, the body and the check word. */
  function WireLength(t: WireTable): nat { 5 + |t.body| + 4 }

  /** The section up to its check word. */
  function Unchecked(t: WireTable): (s: seq<byte>)
    requires |t.body| <= 4084
    ensures |s| == 8 + |t.body|
  {
    [t.tableId, Under(ByteOf(WireLength(t) / 256), 0x0f, 0xb0), ByteOf(WireLength(t) % 256),
     t.id.0, t.id.1, 0xc1 | (t.version << 1), 0x00, 0x00]
    + t.body
  }

  function EncodeWire(t: WireTable): (s: seq<byte>)
    requires |t.body| <= 4084
    ensures |s| == 12 + |t.body|
  {
    Unchecked(t) + BigEndian(Sum32(Unchecked(t)))
  }

  lemma SyntaxBits(hi: byte)
    ensures Under(hi, 0x0f, 0xb0) & 0x80 != 0 && Under(hi, 0x0f, 0xb0) & 0x40 == 0
  {
  }

  lemma VersionBits(v: byte)
    requires v < 32
    ensures ((0xc1 | (v << 1)) >> 1) & 0x1f == v
  {
  }

  lemma WireHeader(t: WireTable)
    requires ValidWire(t)
    ensures var s := EncodeWire(t);
            && s[0] == t.tableId
            && ParseHeader(s[..3]) == SectionHeader(t.tableId, true, false, 9 + |t.body|)
            && Version(s) == t.version && TableBody(s) == t.body
  {
    hide Under, ByteOf, Length12, Sum32, BigEndian;
    SyntaxBits(ByteOf(WireLength(t) / 256));
    LengthRoundTrip(WireLength(t), 0xb0);
    VersionBits(t.version);
    assert EncodeWire(t)[8..8 + |t.body|] == t.body;
  }

  /** Such a section is accepted by the framer and by the CRC check, and its fields are read. */
  lemma WireAccepted(t: WireTable)
    requires ValidWire(t)
    ensures var s := EncodeWire(t);
            && ValidSection(SectionSyntax, s) && |s| >= 12 && Sum32(s) == 0 && s[0] == t.tableId
            && ParseHeader(s[..3]) == SectionHeader(t.tableId, true, false, 9 + |t.body|)
            && Version(s) == t.version && TableBody(s) == t.body
  {
    hide Unchecked, Sum32, ParseHeader, Version, TableBody;
    WireHeader(t);
    CheckWord(Unchecked(t), BigEndian(Sum32(Unchecked(t))));
    NotStuffing(t.tableId);
  }

  lemma NotStuffing(b: byte)
    requires b != 0xff
    ensures b != STUFFING_BYTE
  {
  }
}
