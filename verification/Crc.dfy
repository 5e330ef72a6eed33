/** The CRC-32 of src/mpegts_crc.rs: the table-driven loop, the shift register of
    ISO/IEC 13818-1 Annex A, and schoolbook polynomial division over GF(2). */
module Crc {
  import opened Bytes
  import opened CrcTable

  // ----- registers: 32 coefficients, highest power first -----

  const INITIAL: bv32 := 0xffff_ffff
  const TOP: bv32 := 0x8000_0000

  /** Addition of polynomials over GF(2). */
  function Plus(r: bv32, s: bv32): bv32 { r ^ s }

  predicate Msb(r: bv32) { r & 0x8000_0000 != 0 }

  predicate Odd(r: bv32) { r & 1 != 0 }

  function Dbl(r: bv32): bv32 { r << 1 }

  /** One clock of Annex A: the input bit is added to the top stage, which then feeds back. */
  function Clock(r: bv32, b: bool): bv32 {
    Clock0(if b then Plus(r, TOP) else r)
  }

  function Divide(r: bv32, bits: seq<bool>): bv32
    decreases |bits|
  {
    if bits == [] then r else Divide(Clock(r, bits[0]), bits[1..])
  }

  /** The first `k` bits of a byte, most significant first: the order of transmission. */
  function BitsFrom(d: byte, k: nat): (bits: seq<bool>)
    ensures |bits| == k
    decreases k
  {
    if k == 0 then [] else [High(d)] + BitsFrom(Rest(d), k - 1)
  }

  predicate High(d: byte) { d & 0x80 != 0 }

  function Rest(d: byte): byte { d << 1 }

  function ByteBits(d: byte): (bits: seq<bool>)
    ensures |bits| == 8
  {
    BitsFrom(d, 8)
  }

  function Bits(data: seq<byte>): (bits: seq<bool>)
    ensures |bits| == 8 * |data|
  {
    if data == [] then [] else ByteBits(data[0]) + Bits(data[1..])
  }

  /** The checksum of a byte string: what remains in the register after all its bits. */
  function Sum32(data: seq<byte>): bv32 {
    Divide(INITIAL, Bits(data))
  }

  function Zeros(n: nat): (s: seq<bool>)
    ensures |s| == n && forall i :: 0 <= i < n ==> !s[i]
  {
    seq(n, _ => false)
  }

  /** `r` shifted left `n` places. */
  function Shl(r: bv32, n: nat): bv32
    decreases n
  {
    if n == 0 then r else Shl(Dbl(r), n - 1)
  }

  /** The top `k` bits of `x`, most significant first. */
  function TopBits(x: bv32, k: nat): (bits: seq<bool>)
    ensures |bits| == k
    decreases k
  {
    if k == 0 then [] else [Msb(x)] + TopBits(Dbl(x), k - 1)
  }

  function XorBits(a: seq<bool>, b: seq<bool>): (c: seq<bool>)
    requires |a| == |b|
    ensures |c| == |a| && forall i :: 0 <= i < |a| ==> c[i] == (a[i] != b[i])
  {
    seq(|a|, i requires 0 <= i < |a| => a[i] != b[i])
  }

  function XorBytes(a: seq<byte>, b: seq<byte>): (c: seq<byte>)
    requires |a| == |b|
    ensures |c| == |a| && forall i :: 0 <= i < |a| ==> c[i] == a[i] ^ b[i]
  {
    seq(|a|, i requires 0 <= i < |a| => a[i] ^ b[i])
  }

  // ----- facts about single words -----

  lemma PlusCommutes(r: bv32, s: bv32)
    ensures Plus(r, s) == Plus(s, r)
  {
  }

  lemma PlusAssociates(r: bv32, s: bv32, t: bv32)
    ensures Plus(Plus(r, s), t) == Plus(r, Plus(s, t))
  {
  }

  lemma PlusCancels(r: bv32)
    ensures Plus(r, r) == 0
  {
  }

  lemma PlusZero(r: bv32)
    ensures Plus(r, 0) == r
  {
  }

  /** Sums of four words may be regrouped. */
  lemma PlusSwap(a: bv32, b: bv32, c: bv32, d: bv32)
    ensures Plus(Plus(a, b), Plus(c, d)) == Plus(Plus(a, c), Plus(b, d))
  {
    hide Plus;
    PlusAssociates(a, b, Plus(c, d));
    PlusAssociates(b, c, d);
    PlusCommutes(b, c);
    PlusAssociates(c, b, d);
    PlusAssociates(a, c, Plus(b, d));
  }

  lemma PlusTwice(r: bv32, s: bv32)
    ensures Plus(Plus(r, s), s) == r
  {
    hide Plus;
    PlusAssociates(r, s, s);
    PlusCancels(s);
    PlusZero(r);
  }

  lemma MsbLinear(r: bv32, s: bv32)
    ensures Msb(Plus(r, s)) == (Msb(r) != Msb(s))
  {
  }

  lemma DblLinear(r: bv32, s: bv32)
    ensures Dbl(Plus(r, s)) == Plus(Dbl(r), Dbl(s))
  {
  }

  /** Without a top bit there is no feedback. */
  lemma Clock0Low(x: bv32)
    requires !Msb(x)
    ensures Clock0(x) == Dbl(x)
  {
  }

  /** With a top bit the generator is added. */
  lemma Clock0High(x: bv32)
    requires Msb(x)
    ensures Clock0(x) == Plus(Dbl(x), GENERATOR)
  {
  }

  lemma Clock0Linear(r: bv32, s: bv32)
    ensures Clock0(Plus(r, s)) == Plus(Clock0(r), Clock0(s))
  {
    hide Clock0, Plus, Msb, Dbl;
    Clock0Cases(r);
    Clock0Cases(s);
    Clock0Cases(Plus(r, s));
    MsbLinear(r, s);
    DblLinear(r, s);
    PlusSwap(Dbl(r), GENERATOR, Dbl(s), GENERATOR);
    PlusCancels(GENERATOR);
    PlusZero(Plus(Dbl(r), Dbl(s)));
    PlusAssociates(Dbl(r), Dbl(s), GENERATOR);
    PlusAssociates(Dbl(r), GENERATOR, Dbl(s));
    PlusCommutes(GENERATOR, Dbl(s));
  }

  lemma Clock0Cases(x: bv32)
    ensures Clock0(x) == if Msb(x) then Plus(Dbl(x), GENERATOR) else Dbl(x)
  {
    hide Clock0, Plus, Dbl;
    if Msb(x) {
      Clock0High(x);
    } else {
      Clock0Low(x);
    }
  }

  lemma Feedback(x: bv32)
    ensures Odd(Clock0(x)) == Msb(x)
  {
  }

  lemma TopWord()
    ensures Msb(TOP) && !Msb(0) && Dbl(TOP) == 0 && Dbl(0) == 0
  {
  }

  lemma {:induction false} DivideConcat(r: bv32, a: seq<bool>, b: seq<bool>)
    ensures Divide(r, a + b) == Divide(Divide(r, a), b)
    decreases |a|
  {
    hide Clock;
    if a == [] {
      assert a + b == b;
    } else {
      assert (a + b)[0] == a[0] && (a + b)[1..] == a[1..] + b;
      DivideConcat(Clock(r, a[0]), a[1..], b);
    }
  }

  lemma {:induction false} BitsConcat(a: seq<byte>, b: seq<byte>)
    ensures Bits(a + b) == Bits(a) + Bits(b)
  {
    hide ByteBits;
    if a == [] {
      assert a + b == b;
    } else {
      assert (a + b)[0] == a[0] && (a + b)[1..] == a[1..] + b;
      BitsConcat(a[1..], b);
    }
  }

  lemma ClockLinear(r: bv32, s: bv32, x: bool, y: bool)
    ensures Clock(Plus(r, s), x != y) == Plus(Clock(r, x), Clock(s, y))
  {
    hide Clock0, Plus;
    var x' := if x then TOP else 0;
    var y' := if y then TOP else 0;
    PlusZero(r);
    PlusZero(s);
    PlusZero(Plus(r, s));
    Clock0Linear(Plus(r, x'), Plus(s, y'));
    PlusSwap(r, x', s, y');
    PlusCancels(TOP);
    PlusZero(TOP);
    PlusZero(0);
    PlusCommutes(0, TOP);
  }

  /** The register is linear over GF(2) in its contents and in its input together. */
  lemma {:induction false} DivideLinear(r: bv32, s: bv32, a: seq<bool>, b: seq<bool>)
    requires |a| == |b|
    ensures Divide(Plus(r, s), XorBits(a, b)) == Plus(Divide(r, a), Divide(s, b))
    decreases |a|
  {
    hide Clock, Plus;
    if a != [] {
      ClockLinear(r, s, a[0], b[0]);
      assert XorBits(a, b)[1..] == XorBits(a[1..], b[1..]);
      DivideLinear(Clock(r, a[0]), Clock(s, b[0]), a[1..], b[1..]);
    }
  }

  lemma FeedTopBit(r: bv32, x: bv32)
    ensures Plus(Clock(r, Msb(x)), Dbl(x)) == Clock0(Plus(r, x))
  {
    hide Clock0, Plus, Msb, Dbl;
    var t := if Msb(x) then TOP else 0;
    var x' := Plus(x, t);
    PlusZero(r);
    PlusZero(x);
    MsbLinear(x, t);
    DblLinear(x, t);
    TopWord();
    PlusZero(Dbl(x));
    assert !Msb(x') && Dbl(x') == Dbl(x);
    Clock0Cases(x');
    Clock0Linear(Plus(r, t), x');
    PlusSwap(r, t, x, t);
    PlusCancels(t);
    PlusZero(Plus(r, x));
  }

  /** Feeding the top bits of `x` is feeding zeros to a register that already holds `x`. */
  lemma {:induction false} FeedTopBits(r: bv32, x: bv32, k: nat)
    ensures Divide(r, TopBits(x, k)) == Plus(Divide(Plus(r, x), Zeros(k)), Shl(x, k))
    decreases k
  {
    hide Clock, Clock0, Plus, Msb, Dbl;
    if k == 0 {
      PlusTwice(r, x);
    } else {
      FeedTopBit(r, x);
      FeedTopBits(Clock(r, Msb(x)), Dbl(x), k - 1);
      assert TopBits(x, k)[1..] == TopBits(Dbl(x), k - 1);
      assert Zeros(k)[1..] == Zeros(k - 1);
      ClockFalse(Plus(r, x));
    }
  }

  lemma ClockFalse(r: bv32)
    ensures Clock(r, false) == Clock0(r)
  {
    hide Clock0;
  }

  // ----- the table-driven loop -----

  /** The table index: the top byte of the register xor the next byte of data. */
  function Index(crc: bv32, d: byte): byte {
    (((crc >> 24) ^ (d as bv32)) & 0xff) as byte
  }

  function Shift8(r: bv32): bv32 { r << 8 }

  /** One turn of the loop of `sum32`. */
  function TableStep(crc: bv32, d: byte): bv32 {
    Plus(Shift8(crc), Entry(Index(crc, d)))
  }

  lemma TopOfByte(d: byte)
    ensures Msb(AtTop(d)) == High(d)
  {
  }

  lemma RestOfByte(d: byte)
    ensures Dbl(AtTop(d)) == AtTop(Rest(d))
  {
  }

  lemma {:induction false} ByteAtTop(d: byte, k: nat)
    ensures TopBits(AtTop(d), k) == BitsFrom(d, k)
    decreases k
  {
    hide Msb, Dbl, AtTop, High, Rest;
    if k > 0 {
      TopOfByte(d);
      RestOfByte(d);
      ByteAtTop(Rest(d), k - 1);
    }
  }

  lemma Shl8(x: bv32)
    ensures Shl(x, 8) == Shift8(x)
  {
    hide Dbl;
    var x4 := Dbl(Dbl(Dbl(Dbl(x))));
    assert Shl(x4, 4) == Dbl(Dbl(Dbl(Dbl(x4))));
    Dbl8(x);
  }

  lemma Dbl8(x: bv32)
    ensures Dbl(Dbl(Dbl(Dbl(Dbl(Dbl(Dbl(Dbl(x)))))))) == Shift8(x)
  {
  }

  /** Eight clocks with no input. */
  lemma ZerosByte(r: bv32)
    ensures Divide(r, Zeros(8)) == Clock8(r)
  {
    hide Clock0, Clock;
    var r4 := Clock0(Clock0(Clock0(Clock0(r))));
    ZerosHalf(r);
    ZerosHalf(r4);
    assert Zeros(8) == Zeros(4) + Zeros(4);
    DivideConcat(r, Zeros(4), Zeros(4));
  }

  lemma ZerosHalf(r: bv32)
    ensures Divide(r, Zeros(4)) == Clock0(Clock0(Clock0(Clock0(r))))
  {
    hide Clock0, Clock;
    var r1 := Clock0(r);
    var r2 := Clock0(r1);
    var r3 := Clock0(r2);
    ClockFalse(r);
    ClockFalse(r1);
    ClockFalse(r2);
    ClockFalse(r3);
    assert Zeros(4)[1..] == Zeros(3) && Zeros(3)[1..] == Zeros(2) && Zeros(2)[1..] == Zeros(1) && Zeros(1)[1..] == [];
    assert Divide(r2, Zeros(2)) == Divide(r3, Zeros(1)) == Clock0(r3);
  }

  lemma Clock8Linear(r: bv32, s: bv32)
    ensures Clock8(Plus(r, s)) == Plus(Clock8(r), Clock8(s))
  {
    hide Clock0, Plus;
    var r1, s1 := Clock0(r), Clock0(s);
    var r2, s2 := Clock0(r1), Clock0(s1);
    var r3, s3 := Clock0(r2), Clock0(s2);
    var r4, s4 := Clock0(r3), Clock0(s3);
    var r5, s5 := Clock0(r4), Clock0(s4);
    var r6, s6 := Clock0(r5), Clock0(s5);
    var r7, s7 := Clock0(r6), Clock0(s6);
    Clock0Linear(r, s);
    Clock0Linear(r1, s1);
    Clock0Linear(r2, s2);
    Clock0Linear(r3, s3);
    Clock0Linear(r4, s4);
    Clock0Linear(r5, s5);
    Clock0Linear(r6, s6);
    Clock0Linear(r7, s7);
  }

  lemma Low8(x: bv32)
    requires x & 0xff00_0000 == 0
    ensures Clock8(x) == Shift8(x)
  {
  }

  /** The register with a byte added at the top: the table index above, the rest below. */
  lemma SplitWord(crc: bv32, d: byte)
    ensures Plus(crc, AtTop(d)) == Plus(AtTop(Index(crc, d)), crc & 0x00ff_ffff)
  {
    hide Plus, AtTop, Index;
    IndexAtTop(crc, d);
    HighPart(crc);
    PlusAssociates(AtTop((crc >> 24) as byte), AtTop(d), crc & 0x00ff_ffff);
    PlusCommutes(AtTop(d), crc & 0x00ff_ffff);
    PlusAssociates(AtTop((crc >> 24) as byte), crc & 0x00ff_ffff, AtTop(d));
  }

  lemma IndexAtTop(crc: bv32, d: byte)
    ensures AtTop(Index(crc, d)) == Plus(AtTop((crc >> 24) as byte), AtTop(d))
  {
  }

  lemma HighPart(crc: bv32)
    ensures Plus(AtTop((crc >> 24) as byte), crc & 0x00ff_ffff) == crc
  {
  }

  lemma LowPart(crc: bv32)
    ensures Clock8(crc & 0x00ff_ffff) == Shift8(crc)
  {
    hide Clock8, Shift8;
    LowMask(crc);
    Low8(crc & 0x00ff_ffff);
    LowShift(crc);
  }

  lemma LowMask(crc: bv32)
    ensures (crc & 0x00ff_ffff) & 0xff00_0000 == 0
  {
  }

  lemma LowShift(crc: bv32)
    ensures Shift8(crc & 0x00ff_ffff) == Shift8(crc)
  {
  }

  lemma TopCleared(d: byte)
    ensures Shift8(AtTop(d)) == 0
  {
  }

  /** A byte of input is eight clocks of the register with the byte added at the top. */
  lemma ByteFeeds(r: bv32, d: byte)
    ensures Divide(r, ByteBits(d)) == Clock8(Plus(r, AtTop(d)))
  {
    hide Clock8, Plus, AtTop, Shift8, BitsFrom;
    var x := AtTop(d);
    ByteAtTop(d, 8);
    FeedTopBits(r, x, 8);
    Shl8(x);
    TopCleared(d);
    ZerosByte(Plus(r, x));
    PlusZero(Clock8(Plus(r, x)));
  }

  /** One table lookup does the work of eight clocks. */
  lemma TableStepDivides(crc: bv32, d: byte)
    ensures TableStep(crc, d) == Divide(crc, ByteBits(d))
  {
    hide Clock8, Plus, AtTop, Index, Shift8, BitsFrom;
    ByteFeeds(crc, d);
    SplitWord(crc, d);
    Clock8Linear(AtTop(Index(crc, d)), crc & 0x00ff_ffff);
    LowPart(crc);
    PlusCommutes(Entry(Index(crc, d)), Shift8(crc));
  }

  lemma {:induction false} BitsPush(data: seq<byte>, d: byte)
    ensures Bits(data + [d]) == Bits(data) + ByteBits(d)
  {
    hide ByteBits;
    BitsConcat(data, [d]);
    assert Bits([d]) == ByteBits(d) + Bits([]);
  }

  lemma PrefixStep(data: seq<byte>, i: nat)
    requires i < |data|
    ensures TableStep(Sum32(data[..i]), data[i]) == Sum32(data[..i + 1])
  {
    hide ByteBits, Clock, TableStep;
    TableStepDivides(Sum32(data[..i]), data[i]);
    BitsPush(data[..i], data[i]);
    DivideConcat(INITIAL, Bits(data[..i]), ByteBits(data[i]));
    assert data[..i + 1] == data[..i] + [data[i]];
  }

  /** `sum32`: the loop over bytes leaves what the shift register leaves after their bits. */
  method ComputeSum32(data: seq<byte>) returns (crc: bv32)
    ensures crc == Sum32(data)
  {
    hide Index, Plus, Shift8, Sum32, Entry;
    crc := INITIAL;
    EmptySum();
    for i := 0 to |data|
      invariant crc == Sum32(data[..i])
    {
      PrefixStep(data, i);
      var index := Index(crc, data[i]);
      crc := Plus(Shift8(crc), Entry(index));
    }
    assert data[..|data|] == data;
  }

  lemma EmptySum()
    ensures Sum32([]) == 0xffff_ffff
  {
  }
}
