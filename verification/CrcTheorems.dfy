/** What the checksum is good for: appended check words, error detection, and its
    meaning as a polynomial remainder (ISO/IEC 13818-1, Annex A). */
module CrcTheorems {
  import opened Bytes
  import opened CrcTable
  import opened Crc

  // ----- appending the check word -----

  /** Up to four bytes as the leading bytes of a word. */
  function Word(c: seq<byte>): bv32 {
    if c == [] then 0 else Plus(AtTop(c[0]), Shr8(Word(c[1..])))
  }

  function Shr8(r: bv32): bv32 { r >> 8 }

  function BigEndian(r: bv32): (c: seq<byte>)
    ensures |c| == 4
  {
    [(r >> 24) as byte, ((r >> 16) & 0xff) as byte, ((r >> 8) & 0xff) as byte, (r & 0xff) as byte]
  }

  predicate Clear1(r: bv32) { r & 0xff == 0 }

  predicate Clear2(r: bv32) { r & 0xffff == 0 }

  predicate Clear3(r: bv32) { r & 0x00ff_ffff == 0 }

  lemma Clear3Step(d: byte)
    ensures Clear3(Plus(AtTop(d), 0))
  {
  }

  lemma Clear2Step(d: byte, r: bv32)
    requires Clear3(r)
    ensures Clear2(Plus(AtTop(d), Shr8(r)))
  {
  }

  lemma Clear1Step(d: byte, r: bv32)
    requires Clear2(r)
    ensures Clear1(Plus(AtTop(d), Shr8(r)))
  {
  }

  lemma Shr8Zero()
    ensures Shr8(0) == 0 && Clear1(0)
  {
  }

  /** A word made of three bytes or fewer leaves its last byte clear. */
  lemma WordClear(c: seq<byte>)
    requires |c| <= 3
    ensures Clear1(Word(c))
  {
    hide Clear1, Clear2, Clear3, Plus, AtTop, Shr8;
    Shr8Zero();
    if |c| == 3 {
      WordClear3(c[2]);
      assert c[1..][1..] == [c[2]];
      Clear2Step(c[1], Word([c[2]]));
      Clear1Step(c[0], Word(c[1..]));
    } else if |c| == 2 {
      assert c[1..] == [c[1]];
      WordClear3(c[1]);
      Clear3IsClear2(Word([c[1]]));
      Clear1Step(c[0], Word(c[1..]));
    } else if |c| == 1 {
      assert c == [c[0]];
      WordClear3(c[0]);
      Clear3IsClear2(Word(c));
      Clear2IsClear1(Word(c));
    }
  }

  lemma WordClear3(d: byte)
    ensures Clear3(Word([d]))
  {
    hide Clear3, Plus, AtTop, Shr8;
    Shr8Zero();
    Clear3Step(d);
    assert Word([d]) == Plus(AtTop(d), 0);
  }

  lemma Clear3IsClear2(r: bv32)
    requires Clear3(r)
    ensures Clear2(r)
  {
  }

  lemma Clear2IsClear1(r: bv32)
    requires Clear2(r)
    ensures Clear1(r)
  {
  }

  lemma Shr8TopClear(r: bv32)
    requires Clear1(r)
    ensures Clock8(Shr8(r)) == r
  {
    hide Clock8;
    ShiftedIn(r);
    Low8(Shr8(r));
    ShiftedBack(r);
  }

  lemma ShiftedIn(r: bv32)
    ensures Shr8(r) & 0xff00_0000 == 0
  {
  }

  lemma ShiftedBack(r: bv32)
    requires Clear1(r)
    ensures Shift8(Shr8(r)) == r
  {
  }

  /** `n` bytes' worth of clocks with no input. */
  function ClockBytes(r: bv32, n: nat): bv32
    decreases n
  {
    if n == 0 then r else ClockBytes(Clock8(r), n - 1)
  }

  /** Feeding up to four bytes is clocking a register to which they were added beforehand. */
  lemma {:induction false} FeedWord(r: bv32, c: seq<byte>)
    requires |c| <= 4
    ensures Divide(r, Bits(c)) == ClockBytes(Plus(r, Word(c)), |c|)
    decreases |c|
  {
    hide Clock8, Plus, AtTop, Shr8, ByteBits;
    if c == [] {
      PlusZero(r);
    } else {
      var x := Plus(r, AtTop(c[0]));
      var rest := Word(c[1..]);
      DivideConcat(r, ByteBits(c[0]), Bits(c[1..]));
      ByteFeeds(r, c[0]);
      FeedWord(Clock8(x), c[1..]);
      WordClear(c[1..]);
      Shr8TopClear(rest);
      Clock8Linear(x, Shr8(rest));
      PlusAssociates(r, AtTop(c[0]), Shr8(rest));
    }
  }

  lemma Clock0Zero(x: bv32)
    ensures Clock0(x) == 0 <==> x == 0
  {
  }

  lemma Clock8Zero(x: bv32)
    ensures Clock8(x) == 0 <==> x == 0
  {
    hide Clock0;
    var x1 := Clock0(x);
    var x2 := Clock0(x1);
    var x3 := Clock0(x2);
    var x4 := Clock0(x3);
    var x5 := Clock0(x4);
    var x6 := Clock0(x5);
    Clock0Zero(x);
    Clock0Zero(x1);
    Clock0Zero(x2);
    Clock0Zero(x3);
    Clock0Zero(x4);
    Clock0Zero(x5);
    Clock0Zero(x6);
    Clock0Zero(Clock0(x6));
  }

  lemma {:induction false} ClockBytesZero(r: bv32, n: nat)
    ensures ClockBytes(r, n) == 0 <==> r == 0
    decreases n
  {
    hide Clock8;
    if n > 0 {
      Clock8Zero(r);
      ClockBytesZero(Clock8(r), n - 1);
    }
  }

  lemma PlusIsZero(r: bv32, s: bv32)
    ensures Plus(r, s) == 0 <==> r == s
  {
    hide Plus;
    PlusTwice(r, s);
    PlusCommutes(0, s);
    PlusZero(s);
    PlusCancels(r);
  }

  lemma WordInline(a: byte, b: byte, c: byte, d: byte)
    ensures Word([a, b, c, d]) == Plus(AtTop(a), Shr8(Plus(AtTop(b), Shr8(Plus(AtTop(c), Shr8(Plus(AtTop(d), Shr8(0))))))))
  {
    hide Plus, AtTop, Shr8;
    assert [a, b, c, d][1..] == [b, c, d] && [b, c, d][1..] == [c, d] && [c, d][1..] == [d] && [d][1..] == [];
    assert Word([d]) == Plus(AtTop(d), Shr8(0));
    assert Word([c, d]) == Plus(AtTop(c), Shr8(Word([d])));
    assert Word([b, c, d]) == Plus(AtTop(b), Shr8(Word([c, d])));
  }

  lemma WordBytes(a: byte, b: byte, c: byte, d: byte)
    ensures BigEndian(Plus(AtTop(a), Shr8(Plus(AtTop(b), Shr8(Plus(AtTop(c), Shr8(Plus(AtTop(d), Shr8(0))))))))) == [a, b, c, d]
  {
  }

  lemma BytesWord(r: bv32)
    ensures var c := BigEndian(r);
            Plus(AtTop(c[0]), Shr8(Plus(AtTop(c[1]), Shr8(Plus(AtTop(c[2]), Shr8(Plus(AtTop(c[3]), Shr8(0)))))))) == r
  {
  }

  /** Four bytes spell the word `r` exactly when they are `r` in big-endian order. */
  lemma WordIsBigEndian(c: seq<byte>, r: bv32)
    requires |c| == 4
    ensures r == Word(c) <==> c == BigEndian(r)
  {
    hide Plus, AtTop, Shr8, BigEndian;
    assert c == [c[0], c[1], c[2], c[3]];
    WordInline(c[0], c[1], c[2], c[3]);
    WordBytes(c[0], c[1], c[2], c[3]);
    var b := BigEndian(r);
    assert b == [b[0], b[1], b[2], b[3]];
    WordInline(b[0], b[1], b[2], b[3]);
    BytesWord(r);
  }

  /** A message followed by four bytes checks to zero exactly when those bytes are its
      checksum, most significant byte first. */
  lemma CheckWord(m: seq<byte>, c: seq<byte>)
    requires |c| == 4
    ensures Sum32(m + c) == 0 <==> c == BigEndian(Sum32(m))
  {
    hide Plus, Word, BigEndian, ByteBits, Clock;
    BitsConcat(m, c);
    DivideConcat(INITIAL, Bits(m), Bits(c));
    FeedWord(Sum32(m), c);
    ClockBytesZero(Plus(Sum32(m), Word(c)), 4);
    PlusIsZero(Sum32(m), Word(c));
    WordIsBigEndian(c, Sum32(m));
  }

  // ----- error bursts -----

  function XorByte(a: byte, b: byte): byte { a ^ b }

  lemma HighXor(a: byte, b: byte)
    ensures High(XorByte(a, b)) == (High(a) != High(b))
  {
  }

  lemma RestXor(a: byte, b: byte)
    ensures Rest(XorByte(a, b)) == XorByte(Rest(a), Rest(b))
  {
  }

  lemma {:induction false} BitsFromXor(a: byte, b: byte, k: nat)
    ensures BitsFrom(XorByte(a, b), k) == XorBits(BitsFrom(a, k), BitsFrom(b, k))
    decreases k
  {
    hide High, Rest, XorByte;
    if k > 0 {
      HighXor(a, b);
      RestXor(a, b);
      BitsFromXor(Rest(a), Rest(b), k - 1);
      XorBitsSplit([High(a)], BitsFrom(Rest(a), k - 1), [High(b)], BitsFrom(Rest(b), k - 1));
      assert [High(XorByte(a, b))] == XorBits([High(a)], [High(b)]);
    }
  }

  lemma XorBitsSplit(a: seq<bool>, b: seq<bool>, c: seq<bool>, d: seq<bool>)
    requires |a| == |c| && |b| == |d|
    ensures XorBits(a + b, c + d) == XorBits(a, c) + XorBits(b, d)
  {
  }

  lemma {:induction false} BitsXor(a: seq<byte>, b: seq<byte>)
    requires |a| == |b|
    ensures Bits(XorBytes(a, b)) == XorBits(Bits(a), Bits(b))
  {
    hide BitsFrom;
    if a != [] {
      var x := XorBytes(a, b);
      assert x[1..] == XorBytes(a[1..], b[1..]);
      BitsFromXor(a[0], b[0], 8);
      BitsXor(a[1..], b[1..]);
      XorBitsSplit(ByteBits(a[0]), Bits(a[1..]), ByteBits(b[0]), Bits(b[1..]));
    }
  }

  lemma {:induction false} ZerosKeep(r: bv32, n: nat)
    ensures Divide(r, Zeros(n)) == 0 <==> r == 0
    decreases n
  {
    hide Clock0, Clock;
    if n > 0 {
      ClockFalse(r);
      Clock0Zero(r);
      assert Zeros(n)[1..] == Zeros(n - 1);
      ZerosKeep(Clock0(r), n - 1);
    }
  }

  lemma {:induction false} ShlLinear(r: bv32, s: bv32, n: nat)
    ensures Shl(Plus(r, s), n) == Plus(Shl(r, n), Shl(s, n))
    decreases n
  {
    hide Plus, Dbl;
    if n > 0 {
      DblLinear(r, s);
      ShlLinear(Dbl(r), Dbl(s), n - 1);
    }
  }

  lemma {:induction false} ShlAdd(r: bv32, m: nat, n: nat)
    ensures Shl(r, m + n) == Shl(Shl(r, m), n)
    decreases m
  {
    hide Dbl;
    if m > 0 {
      ShlAdd(Dbl(r), m - 1, n);
    }
  }

  lemma {:induction false} ShlZero(n: nat)
    ensures Shl(0, n) == 0
    decreases n
  {
    hide Dbl;
    TopWord();
    if n > 0 {
      ShlZero(n - 1);
    }
  }

  /** Nothing is left of a word after 32 places. */
  lemma Shl32(r: bv32)
    ensures Shl(r, 32) == 0
  {
    hide Dbl, Shift8;
    var r1 := Shift8(r);
    var r2 := Shift8(r1);
    var r3 := Shift8(r2);
    Shl8(r);
    Shl8(r1);
    Shl8(r2);
    Shl8(r3);
    ShlAdd(r, 8, 24);
    ShlAdd(r1, 8, 16);
    ShlAdd(r2, 8, 8);
    Shift32(r);
  }

  lemma Shift32(r: bv32)
    ensures Shift8(Shift8(Shift8(Shift8(r)))) == 0
  {
  }

  /** An odd word survives 31 places, as its top bit. */
  lemma OddLasts(r: bv32, n: nat)
    requires Odd(r) && n <= 31
    ensures Shl(r, n) != 0
  {
    hide Dbl, Odd;
    if Shl(r, n) == 0 {
      ShlZero(31 - n);
      ShlAdd(r, n, 31 - n);
      Shl31(r);
    }
  }

  lemma Shl31(r: bv32)
    requires Odd(r)
    ensures Shl(r, 31) != 0
  {
    hide Dbl, Odd, Shift8;
    var r1 := Shift8(r);
    var r2 := Shift8(r1);
    var r3 := Shift8(r2);
    Shl8(r);
    Shl8(r1);
    Shl8(r2);
    ShlAdd(r, 8, 23);
    ShlAdd(r1, 8, 15);
    ShlAdd(r2, 8, 7);
    var r7 := Dbl(Dbl(Dbl(r3)));
    assert Shl(r7, 4) == Dbl(Dbl(Dbl(Dbl(r7))));
    ShlAdd(r3, 3, 4);
    assert Shl(r3, 3) == r7;
    Shift31(r);
  }

  lemma Shift31(r: bv32)
    requires Odd(r)
    ensures Dbl(Dbl(Dbl(Dbl(Dbl(Dbl(Dbl(Shift8(Shift8(Shift8(r)))))))))) != 0
  {
  }

  /** While the register's lowest set bit has not been pushed off the top, a clock cannot
      clear it: feedback sets the lowest bit anew, and no feedback only moves it up. */
  lemma ClockKeeps(r: bv32, b: bool, n: nat)
    requires n <= 31 && Shl(r, n + 1) != 0
    ensures Shl(Clock(r, b), n) != 0
  {
    hide Clock0, Plus, Dbl, Msb, Odd;
    var x := if b then Plus(r, TOP) else r;
    assert Clock(r, b) == Clock0(x);
    Clock0Cases(x);
    Feedback(x);
    if Msb(x) {
      OddLasts(Clock0(x), n);
    } else {
      DblLinear(r, TOP);
      TopWord();
      PlusZero(Dbl(r));
      assert Dbl(x) == Dbl(r);
    }
  }

  lemma {:induction false} BurstLasts(r: bv32, w: seq<bool>, n: nat)
    requires n + |w| <= 32 && Shl(r, n + |w|) != 0
    ensures Shl(Divide(r, w), n) != 0
    decreases |w|
  {
    hide Clock, Dbl;
    if w != [] {
      ClockKeeps(r, w[0], n + |w| - 1);
      BurstLasts(Clock(r, w[0]), w[1..], n);
    }
  }

  /** A burst of at most 32 bits beginning with a set bit leaves the register non-zero. */
  lemma BurstRemains(w: seq<bool>)
    requires |w| <= 31
    ensures Divide(0, [true] + w) != 0
  {
    hide Clock, Dbl, Odd, Shl, Divide;
    var g := Clock(0, true);
    FirstClock();
    OddLasts(g, 31);
    BurstLasts(g, w, 31 - |w|);
    ShlZero(31 - |w|);
    FirstBit(w);
  }

  lemma FirstBit(w: seq<bool>)
    ensures Divide(0, [true] + w) == Divide(Clock(0, true), w)
  {
    hide Clock;
    assert ([true] + w)[1..] == w;
  }

  lemma FirstClock()
    ensures Odd(Clock(0, true))
  {
  }

  predicate Within(bits: seq<bool>, start: int, width: nat) {
    forall j :: 0 <= j < |bits| && bits[j] ==> start <= j < start + width
  }

  lemma {:induction false} FirstSet(bits: seq<bool>) returns (f: nat)
    requires exists j :: 0 <= j < |bits| && bits[j]
    ensures f < |bits| && bits[f] && forall j :: 0 <= j < f ==> !bits[j]
  {
    f := 0;
    while !bits[f]
      invariant f < |bits|
      invariant forall j :: 0 <= j < f ==> !bits[j]
      invariant exists j :: f <= j < |bits| && bits[j]
      decreases |bits| - f
    {
      f := f + 1;
    }
  }

  /** An error pattern confined to 32 consecutive bits leaves a non-zero remainder. */
  lemma PatternRemains(bits: seq<bool>, start: int)
    requires Within(bits, start, 32)
    requires exists j :: 0 <= j < |bits| && bits[j]
    ensures Divide(0, bits) != 0
  {
    hide Divide, Clock;
    var f := FirstSet(bits);
    var stop := if f + 32 <= |bits| then f + 32 else |bits|;
    var burst := bits[f + 1..stop];
    SplitPattern(bits, start, f, stop);
    DivideConcat(0, Zeros(f), ([true] + burst) + Zeros(|bits| - stop));
    ZerosKeep(0, f);
    DivideConcat(0, [true] + burst, Zeros(|bits| - stop));
    BurstRemains(burst);
    ZerosKeep(Divide(0, [true] + burst), |bits| - stop);
  }

  /** The pattern is zeros, the burst from its first set bit, and zeros again. */
  lemma SplitPattern(bits: seq<bool>, start: int, f: nat, stop: nat)
    requires Within(bits, start, 32)
    requires f < |bits| && bits[f] && forall j :: 0 <= j < f ==> !bits[j]
    requires stop == if f + 32 <= |bits| then f + 32 else |bits|
    ensures bits == Zeros(f) + (([true] + bits[f + 1..stop]) + Zeros(|bits| - stop))
  {
    assert bits[..f] == Zeros(f);
    assert bits[stop..] == Zeros(|bits| - stop);
    assert bits[f..stop] == [true] + bits[f + 1..stop];
    assert bits == bits[..f] + (bits[f..stop] + bits[stop..]);
  }

  /** Any change confined to 32 consecutive bits, in data of any length, changes the
      checksum; so data that checked to zero no longer does. */
  lemma BurstDetected(data: seq<byte>, flips: seq<byte>, start: int)
    requires |flips| == |data|
    requires Within(Bits(flips), start, 32)
    requires exists j :: 0 <= j < |Bits(flips)| && Bits(flips)[j]
    ensures Sum32(XorBytes(data, flips)) != Sum32(data)
  {
    hide Clock, Plus, Bits;
    BitsXor(data, flips);
    PlusZero(INITIAL);
    DivideLinear(INITIAL, 0, Bits(data), Bits(flips));
    PatternRemains(Bits(flips), start);
    PlusSame(Sum32(data), Divide(0, Bits(flips)));
  }

  lemma PlusSame(r: bv32, s: bv32)
    ensures Plus(r, s) == r <==> s == 0
  {
  }

  // ----- the remainder of a polynomial division -----

  /** `p` with the coefficients `q` added to its leading ones. */
  function AddFront(p: seq<bool>, q: seq<bool>): (s: seq<bool>)
    requires |q| <= |p|
    ensures |s| == |p|
  {
    XorBits(p[..|q|], q) + p[|q|..]
  }

  /** x^32 and the low coefficients of the generator. */
  function Generator(): (g: seq<bool>)
    ensures |g| == 33
  {
    [true] + TopBits(GENERATOR, 32)
  }

  /** Schoolbook long division by the generator: subtract it from the front while the
      leading coefficient is set, then drop that coefficient, until 32 remain. */
  function PolyMod(p: seq<bool>): seq<bool>
    decreases |p|
  {
    if |p| <= 32 then p else PolyMod((if p[0] then AddFront(p, Generator()) else p)[1..])
  }

  lemma {:induction false} TopBitAt(x: bv32, k: nat, i: nat)
    requires i < k
    ensures TopBits(x, k)[i] == Msb(Shl(x, i))
    decreases i
  {
    hide Msb, Dbl;
    if i > 0 {
      TopBitAt(Dbl(x), k - 1, i - 1);
    }
  }

  lemma TopBitsSum(r: bv32, s: bv32, i: nat)
    requires i < 32
    ensures TopBits(Plus(r, s), 32)[i] == (TopBits(r, 32)[i] != TopBits(s, 32)[i])
  {
    hide Plus, Dbl, Msb;
    TopBitAt(Plus(r, s), 32, i);
    TopBitAt(r, 32, i);
    TopBitAt(s, 32, i);
    ShlLinear(r, s, i);
    MsbLinear(Shl(r, i), Shl(s, i));
  }

  lemma TopBitsDouble(r: bv32, i: nat)
    requires i < 32
    ensures TopBits(Dbl(r), 32)[i] == if i < 31 then TopBits(r, 32)[i + 1] else false
  {
    hide Dbl, Msb;
    TopBitAt(Dbl(r), 32, i);
    if i < 31 {
      TopBitAt(r, 32, i + 1);
    } else {
      Shl32(r);
      TopWord();
    }
  }

  lemma TopBitsOfTop(i: nat)
    requires i < 32
    ensures TopBits(TOP, 32)[i] == (i == 0)
  {
    hide Dbl, Msb;
    TopWord();
    TopBitAt(TOP, 32, i);
    if i > 0 {
      ShlZero(i - 1);
    }
  }

  /** The coefficients after one clock, from those before it. */
  lemma ClockCoefficients(r: bv32, b: bool, i: nat)
    requires i < 32
    ensures TopBits(Clock(r, b), 32)[i]
         == ((if i < 31 then TopBits(r, 32)[i + 1] else false) != ((b != Msb(r)) && TopBits(GENERATOR, 32)[i]))
  {
    hide Clock0, Plus, Dbl, Msb, TopBits;
    var x := if b then Plus(r, TOP) else r;
    InputAtTop(r, b, i);
    assert Clock(r, b) == Clock0(x);
    Clock0Cases(x);
    TopBitsSum(Dbl(x), GENERATOR, i);
    TopBitsDouble(x, i);
  }

  /** Adding the input bit changes the leading coefficient only. */
  lemma InputAtTop(r: bv32, b: bool, i: nat)
    requires i < 32
    ensures var x := if b then Plus(r, TOP) else r;
            Msb(x) == (b != Msb(r)) && (i < 31 ==> TopBits(x, 32)[i + 1] == TopBits(r, 32)[i + 1])
  {
    hide Plus, Dbl, Msb;
    MsbLinear(r, TOP);
    TopWord();
    if i < 31 {
      TopBitsSum(r, TOP, i + 1);
      TopBitsOfTop(i + 1);
    }
  }

  lemma LeadingCoefficient(r: bv32)
    ensures TopBits(r, 32)[0] == Msb(r)
  {
    hide Msb, Dbl;
  }

  lemma DivisionStep(r: bv32, bits: seq<bool>)
    requires bits != []
    ensures var p := AddFront(bits + Zeros(32), TopBits(r, 32));
            (if p[0] then AddFront(p, Generator()) else p)[1..]
            == AddFront(bits[1..] + Zeros(32), TopBits(Clock(r, bits[0]), 32))
  {
    hide Clock, Dbl, Msb, TopBits;
    LeadingCoefficient(r);
    var p := AddFront(bits + Zeros(32), TopBits(r, 32));
    var q := (if p[0] then AddFront(p, Generator()) else p)[1..];
    var s := AddFront(bits[1..] + Zeros(32), TopBits(Clock(r, bits[0]), 32));
    assert p[0] == (bits[0] != Msb(r));
    forall i | 0 <= i < |s|
      ensures q[i] == s[i]
    {
      if i < 32 {
        ClockCoefficients(r, bits[0], i);
      }
    }
  }

  lemma {:induction false} DivideIsRemainder(r: bv32, bits: seq<bool>)
    ensures TopBits(Divide(r, bits), 32) == PolyMod(AddFront(bits + Zeros(32), TopBits(r, 32)))
    decreases |bits|
  {
    hide Clock, Dbl, Msb, TopBits;
    if bits == [] {
      assert [] + Zeros(32) == Zeros(32);
      assert AddFront(Zeros(32), TopBits(r, 32)) == TopBits(r, 32);
    } else {
      DivisionStep(r, bits);
      DivideIsRemainder(Clock(r, bits[0]), bits[1..]);
    }
  }

  /** The checksum is the remainder, on division by the generator, of the message times
      x^32 with its 32 leading coefficients inverted. */
  lemma SumIsRemainder(data: seq<byte>)
    ensures TopBits(Sum32(data), 32) == PolyMod(AddFront(Bits(data) + Zeros(32), TopBits(0xffff_ffff, 32)))
  {
    DivideIsRemainder(INITIAL, Bits(data));
  }
}
