/** Bytes, identifiers and the small result types shared by every component. */
module Bytes {

  /** An octet; bit patterns are read off it with the same masks and shifts as the source. */
  type byte = bv8

  /** A 13-bit packet identifier (src/packet.rs `Pid`). */
  type Pid = p: nat | p < 8192

  datatype Option<+T> = None | Some(value: T)

  datatype Result<+T, +E> = Ok(value: T) | Err(error: E)

  /** The big-endian number of two bytes. */
  function Number16(hi: byte, lo: byte): (n: nat)
    ensures n < 65536
  {
    var w: bv16 := ((hi as bv16) << 8) | (lo as bv16);
    w as nat
  }

  /** The big-endian number in the low 12 bits of two bytes: every PSI length field. */
  function Length12(hi: byte, lo: byte): (n: nat)
    ensures n <= 4095
  {
    var w: bv16 := ((hi & 0x0f) as bv16 << 8) | (lo as bv16);
    w as nat
  }

  /** The big-endian number in the low 13 bits of two bytes: every PID field. */
  function Pid13(hi: byte, lo: byte): (p: Pid)
  {
    var w: bv16 := ((hi & 0x1f) as bv16 << 8) | (lo as bv16);
    w as nat
  }

  /** The byte with value `n`. */
  function ByteOf(n: nat): (b: byte)
    requires n < 256
    ensures b as nat == n
  {
    if n == 0 then 0 else ByteOf(n - 1) + 1
  }

  lemma ByteOfNat(b: byte)
    ensures ByteOf(b as nat) == b
  {
    SameByte(ByteOf(b as nat), b);
  }

  lemma SameByte(a: byte, b: byte)
    requires a as nat == b as nat
    ensures a == b
  {
  }

  /** The high byte of a field, with `other` supplying the bits above its low `mask` bits. */
  function Under(high: byte, mask: byte, other: byte): byte {
    (high & mask) | (other & !mask)
  }

  lemma Number16Bytes(n: nat)
    requires n < 65536
    ensures Number16(ByteOf(n / 256), ByteOf(n % 256)) == n
  {
    Number16Value(ByteOf(n / 256), ByteOf(n % 256));
  }

  lemma Number16Value(hi: byte, lo: byte)
    ensures Number16(hi, lo) == hi as nat * 256 + lo as nat
  {
  }

  lemma Length12Value(hi: byte, lo: byte, other: byte)
    requires hi as nat < 16
    ensures Length12(Under(hi, 0x0f, other), lo) == hi as nat * 256 + lo as nat
  {
  }

  lemma Pid13Value(hi: byte, lo: byte, other: byte)
    requires hi as nat < 32
    ensures Pid13(Under(hi, 0x1f, other), lo) == hi as nat * 256 + lo as nat
  {
  }

  /** Concatenation of a list of byte strings. */
  function Concat(parts: seq<seq<byte>>): seq<byte> {
    if parts == [] then [] else parts[0] + Concat(parts[1..])
  }

  /** `n` copies of one byte. */
  function Repeat(b: byte, n: nat): (s: seq<byte>)
    ensures |s| == n
    ensures forall i :: 0 <= i < n ==> s[i] == b
  {
    seq(n, _ => b)
  }
}
