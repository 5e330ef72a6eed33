/** Flag-driven layouts: a run of optional fields, each present or absent by a flag, of a fixed
    size or preceded by a length byte. This is the sequential reading, one field after the
    other, that the offset chains of src/packet.rs and src/pes.rs recompute for each getter. */
module Layouts {
  import opened Bytes

  datatype Width = Fixed(size: nat) | Counted

  datatype Slot = Slot(present: bool, width: Width)

  /** What a getter finds: no field, too few bytes for it, or its bytes. */
  datatype Item = Absent | Short | Got(bytes: seq<byte>)

  /** Does `item` have the presence and the size that its slot says? */
  predicate Fits(slot: Slot, item: Item) {
    if !slot.present then item == Absent
    else item.Got? && match slot.width case Fixed(n) => |item.bytes| == n case Counted => |item.bytes| < 256
  }

  /** Read one slot from the unread bytes; `None` once they have run out. */
  function Take(slot: Slot, rest: Option<seq<byte>>): (item: Item)
    ensures item.Short? || Fits(slot, item)
  {
    if !slot.present then Absent
    else if rest.None? then Short
    else
      var s := rest.value;
      match slot.width
      case Fixed(n) => if |s| < n then Short else Got(s[..n])
      case Counted => if |s| < 1 || |s| < 1 + s[0] as nat then Short else Got(s[1..1 + s[0] as nat])
  }

  function After(slot: Slot, rest: Option<seq<byte>>): Option<seq<byte>> {
    match Take(slot, rest)
    case Absent => rest
    case Short => None
    case Got(bytes) => Some(rest.value[|bytes| + (if slot.width.Counted? then 1 else 0)..])
  }

  /** The unread bytes after the first `i` slots. */
  function Rest(slots: seq<Slot>, b: seq<byte>, i: nat): Option<seq<byte>>
    requires i <= |slots|
  {
    if i == 0 then Some(b) else After(slots[i - 1], Rest(slots, b, i - 1))
  }

  /** The sequential reading of all slots. */
  function Walk(slots: seq<Slot>, b: seq<byte>): (items: seq<Item>)
    ensures |items| == |slots|
  {
    seq(|slots|, i requires 0 <= i < |slots| => Take(slots[i], Rest(slots, b, i)))
  }

  lemma WalkAt(slots: seq<Slot>, b: seq<byte>, i: nat)
    requires i < |slots|
    ensures Walk(slots, b)[i] == Take(slots[i], Rest(slots, b, i))
  {
  }

  predicate AllFit(slots: seq<Slot>, items: seq<Item>) {
    |items| == |slots| && forall i :: 0 <= i < |slots| ==> Fits(slots[i], items[i])
  }

  /** One field as a multiplexer writes it. */
  function Put(slot: Slot, item: Item): seq<byte>
    requires Fits(slot, item)
  {
    if !slot.present then []
    else if slot.width.Counted? then [ByteOf(|item.bytes|)] + item.bytes
    else item.bytes
  }

  /** The fields from slot `i` on. */
  function Write(slots: seq<Slot>, items: seq<Item>, i: nat := 0): seq<byte>
    requires AllFit(slots, items) && i <= |slots|
    decreases |slots| - i
  {
    if i == |slots| then [] else Put(slots[i], items[i]) + Write(slots, items, i + 1)
  }

  lemma TakePut(slot: Slot, item: Item, tail: seq<byte>)
    requires Fits(slot, item)
    ensures Take(slot, Some(Put(slot, item) + tail)) == item
    ensures After(slot, Some(Put(slot, item) + tail)) == Some(tail)
  {
    if slot.present {
      var s := Put(slot, item) + tail;
      if slot.width.Counted? {
        assert s[1..1 + |item.bytes|] == item.bytes;
        assert s[1 + |item.bytes|..] == tail;
      } else {
        assert s[..|item.bytes|] == item.bytes;
        assert s[|item.bytes|..] == tail;
      }
    } else {
      assert Put(slot, item) + tail == tail;
    }
  }

  lemma {:induction false} RestWritten(slots: seq<Slot>, items: seq<Item>, tail: seq<byte>, i: nat)
    requires AllFit(slots, items) && i <= |slots|
    ensures Rest(slots, Write(slots, items) + tail, i) == Some(Write(slots, items, i) + tail)
  {
    hide Take, After, Fits, Put;
    if i > 0 {
      RestWritten(slots, items, tail, i - 1);
      TakePut(slots[i - 1], items[i - 1], Write(slots, items, i) + tail);
      assert Put(slots[i - 1], items[i - 1]) + (Write(slots, items, i) + tail) == Write(slots, items, i - 1) + tail;
    }
  }

  /** Reading inverts writing, for every layout, whatever bytes follow. */
  lemma WalkWritten(slots: seq<Slot>, items: seq<Item>, tail: seq<byte>)
    requires AllFit(slots, items)
    ensures Walk(slots, Write(slots, items) + tail) == items
    ensures Rest(slots, Write(slots, items) + tail, |slots|) == Some(tail)
  {
    hide Take, After, Fits, Put, Rest, Walk, AllFit;
    AllFitLength(slots, items);
    var b := Write(slots, items) + tail;
    forall i | 0 <= i < |slots|
      ensures Walk(slots, b)[i] == items[i]
    {
      TakeWritten(slots, items, tail, i);
      WalkAt(slots, b, i);
    }
    RestWritten(slots, items, tail, |slots|);
    assert Write(slots, items, |slots|) + tail == tail;
  }

  lemma AllFitLength(slots: seq<Slot>, items: seq<Item>)
    requires AllFit(slots, items)
    ensures |items| == |slots|
  {
  }

  lemma TakeWritten(slots: seq<Slot>, items: seq<Item>, tail: seq<byte>, i: nat)
    requires AllFit(slots, items) && i < |slots|
    ensures Take(slots[i], Rest(slots, Write(slots, items) + tail, i)) == items[i]
  {
    hide Take, After, Fits, Put, Rest;
    RestWritten(slots, items, tail, i);
    TakePut(slots[i], items[i], Write(slots, items, i + 1) + tail);
    assert Put(slots[i], items[i]) + (Write(slots, items, i + 1) + tail) == Write(slots, items, i) + tail;
  }

  lemma {:induction false} RestLost(slots: seq<Slot>, b: seq<byte>, i: nat, j: nat)
    requires i <= j <= |slots| && Rest(slots, b, i).None?
    ensures Rest(slots, b, j).None?
  {
    if i < j {
      RestLost(slots, b, i, j - 1);
    }
  }

  /** The bytes run out exactly when some field is short; and when none is, every field has
      the presence and size its slot says. */
  lemma RestWhenAllFit(slots: seq<Slot>, b: seq<byte>)
    ensures Rest(slots, b, |slots|).Some? <==> AllFit(slots, Walk(slots, b))
  {
    hide Fits, Take, After, Walk;
    var items := Walk(slots, b);
    if Rest(slots, b, |slots|).Some? {
      forall i | 0 <= i < |slots|
        ensures Fits(slots[i], items[i])
      {
        WalkAt(slots, b, i);
        if !Fits(slots[i], items[i]) {
          assert Rest(slots, b, i + 1).None? by {
            assert Take(slots[i], Rest(slots, b, i)).Short?;
            ShortMeansNone(slots[i], Rest(slots, b, i));
          }
          RestLost(slots, b, i + 1, |slots|);
          assert false;
        }
      }
    } else if AllFit(slots, items) {
      SomeWhileFit(slots, b, |slots|);
      assert false;
    }
  }

  lemma ShortMeansNone(slot: Slot, rest: Option<seq<byte>>)
    requires Take(slot, rest).Short?
    ensures After(slot, rest).None?
  {
  }

  lemma {:induction false} SomeWhileFit(slots: seq<Slot>, b: seq<byte>, i: nat)
    requires i <= |slots| && AllFit(slots, Walk(slots, b))
    ensures Rest(slots, b, i).Some?
  {
    hide Fits, Take, After, Walk;
    if i > 0 {
      SomeWhileFit(slots, b, i - 1);
      WalkAt(slots, b, i - 1);
      assert Fits(slots[i - 1], Walk(slots, b)[i - 1]);
      FitMeansSome(slots[i - 1], Rest(slots, b, i - 1));
    }
  }

  lemma ShortUnlessFit(slots: seq<Slot>, b: seq<byte>)
    ensures Short in Walk(slots, b) <==> !AllFit(slots, Walk(slots, b))
  {
    hide Take, Rest, Walk, Fits;
    var items := Walk(slots, b);
    if Short in items {
      var i :| 0 <= i < |items| && items[i] == Short;
      ShortNeverFits(slots[i]);
    } else {
      forall i | 0 <= i < |slots|
        ensures Fits(slots[i], items[i])
      {
        WalkAt(slots, b, i);
        assert items[i] in items;
      }
    }
  }

  lemma ShortNeverFits(slot: Slot)
    ensures !Fits(slot, Short)
  {
  }

  lemma FitMeansSome(slot: Slot, rest: Option<seq<byte>>)
    requires rest.Some? && Fits(slot, Take(slot, rest))
    ensures After(slot, rest).Some?
  {
  }

  lemma PutTake(slot: Slot, s: seq<byte>)
    requires !Take(slot, Some(s)).Short?
    ensures After(slot, Some(s)).Some? && Put(slot, Take(slot, Some(s))) + After(slot, Some(s)).value == s
  {
    hide ByteOf;
    if slot.present {
      var bytes := Take(slot, Some(s)).bytes;
      if slot.width.Counted? {
        ByteOfNat(s[0]);
        assert Put(slot, Got(bytes)) == [s[0]] + bytes;
        CountedSplit(s, |bytes|);
      } else {
        assert s[..|bytes|] + s[|bytes|..] == s;
      }
    }
  }

  lemma CountedSplit(s: seq<byte>, size: nat)
    requires 1 + size <= |s|
    ensures [s[0]] + s[1..1 + size] + s[1 + size..] == s
  {
  }

  lemma {:induction false} WriteRest(slots: seq<Slot>, b: seq<byte>, i: nat)
    requires i <= |slots| && AllFit(slots, Walk(slots, b))
    ensures Rest(slots, b, i).Some? && Rest(slots, b, |slots|).Some?
    ensures Write(slots, Walk(slots, b), i) + Rest(slots, b, |slots|).value == Rest(slots, b, i).value
    decreases |slots| - i
  {
    hide Take, After, Put, Fits, Walk, Rest;
    var items := Walk(slots, b);
    SomeWhileFit(slots, b, i);
    SomeWhileFit(slots, b, |slots|);
    if i < |slots| {
      WriteRest(slots, b, i + 1);
      WalkAt(slots, b, i);
      RestNext(slots, b, i);
      assert !items[i].Short? by { ShortNeverFits(slots[i]); }
      PutTake(slots[i], Rest(slots, b, i).value);
      assert Put(slots[i], items[i]) + (Write(slots, items, i + 1) + Rest(slots, b, |slots|).value)
          == Write(slots, items, i) + Rest(slots, b, |slots|).value;
    }
  }

  /** Writing inverts reading: the fields are consecutive and disjoint, and together with what
      follows they are all the bytes. */
  lemma WalkCovers(slots: seq<Slot>, b: seq<byte>)
    requires AllFit(slots, Walk(slots, b))
    ensures Rest(slots, b, |slots|).Some?
    ensures Write(slots, Walk(slots, b)) + Rest(slots, b, |slots|).value == b
  {
    WriteRest(slots, b, 0);
  }

  // ----- offsets -----

  /** The bytes between two offsets, as every getter of the source cuts them. */
  function Cut(b: seq<byte>, from: nat, to: nat): Item
    requires from <= to
  {
    if to > |b| then Short else Got(b[from..to])
  }

  /** The unread bytes are those from `offset` on, none being left past the end. */
  ghost predicate StandsAt(b: seq<byte>, offset: nat, rest: Option<seq<byte>>) {
    rest == if offset <= |b| then Some(b[offset..]) else None
  }

  lemma StepFixed(slot: Slot, b: seq<byte>, offset: nat, rest: Option<seq<byte>>)
    requires slot.width.Fixed? && StandsAt(b, offset, rest)
    ensures Take(slot, rest) == if slot.present then Cut(b, offset, offset + slot.width.size) else Absent
    ensures StandsAt(b, offset + (if slot.present then slot.width.size else 0), After(slot, rest))
  {
  }

  /** A counted field whose length byte is there, by positions of the whole buffer. */
  lemma CountedAt(b: seq<byte>, offset: nat, size: nat)
    requires offset + 1 <= |b| && size == b[offset] as nat
    ensures var s := b[offset..];
            && |s| == |b| - offset && s[0] == b[offset]
            && (offset + 1 + size <= |b| ==>
                  s[1..1 + size] == b[offset + 1..offset + 1 + size] && s[1 + size..] == b[offset + 1 + size..])
  {
  }

  lemma StepCounted(slot: Slot, b: seq<byte>, offset: nat, rest: Option<seq<byte>>)
    requires slot.width.Counted? && StandsAt(b, offset, rest)
    ensures !slot.present ==> Take(slot, rest) == Absent && StandsAt(b, offset, After(slot, rest))
    ensures slot.present && offset + 1 > |b| ==> Take(slot, rest) == Short && After(slot, rest) == None
    ensures slot.present && offset + 1 <= |b| ==>
              var size := b[offset] as nat;
              && Take(slot, rest) == Cut(b, offset + 1, offset + 1 + size)
              && StandsAt(b, offset + 1 + size, After(slot, rest))
  {
    if slot.present && offset + 1 <= |b| {
      CountedAt(b, offset, b[offset] as nat);
    }
  }

  lemma RestNext(slots: seq<Slot>, b: seq<byte>, i: nat)
    requires i < |slots|
    ensures Rest(slots, b, i + 1) == After(slots[i], Rest(slots, b, i))
  {
  }

  /** Reading slot `i` of bytes `from` on, when the getter's offset is where the reading stands. */
  lemma WalkFixed(slots: seq<Slot>, b: seq<byte>, from: nat, i: nat, offset: nat)
    requires from <= |b| && i < |slots| && slots[i].width.Fixed?
    requires StandsAt(b, offset, Rest(slots, b[from..], i))
    ensures Walk(slots, b[from..])[i] == if slots[i].present then Cut(b, offset, offset + slots[i].width.size) else Absent
    ensures StandsAt(b, offset + (if slots[i].present then slots[i].width.size else 0), Rest(slots, b[from..], i + 1))
  {
    hide *;
    var rest := Rest(slots, b[from..], i);
    StepFixed(slots[i], b, offset, rest);
    RestNext(slots, b[from..], i);
    WalkAt(slots, b[from..], i);
  }

  lemma WalkCounted(slots: seq<Slot>, b: seq<byte>, from: nat, i: nat, offset: nat)
    requires from <= |b| && i < |slots| && slots[i].width.Counted?
    requires StandsAt(b, offset, Rest(slots, b[from..], i))
    ensures !slots[i].present ==> Walk(slots, b[from..])[i] == Absent && StandsAt(b, offset, Rest(slots, b[from..], i + 1))
    ensures slots[i].present && offset + 1 > |b| ==>
              Walk(slots, b[from..])[i] == Short && Rest(slots, b[from..], i + 1) == None
    ensures slots[i].present && offset + 1 <= |b| ==>
              var size := b[offset] as nat;
              && Walk(slots, b[from..])[i] == Cut(b, offset + 1, offset + 1 + size)
              && StandsAt(b, offset + 1 + size, Rest(slots, b[from..], i + 1))
  {
    hide *;
    var rest := Rest(slots, b[from..], i);
    StepCounted(slots[i], b, offset, rest);
    RestNext(slots, b[from..], i);
    WalkAt(slots, b[from..], i);
  }

  lemma WalkLost(slots: seq<Slot>, b: seq<byte>, i: nat)
    requires i < |slots| && Rest(slots, b, i).None?
    ensures Walk(slots, b)[i] == if slots[i].present then Short else Absent
    ensures Rest(slots, b, i + 1).None?
  {
  }

  lemma WalkStarts(slots: seq<Slot>, b: seq<byte>, from: nat)
    requires from <= |b|
    ensures StandsAt(b, from, Rest(slots, b[from..], 0))
  {
  }

  // ----- writing flags -----

  /** A byte of flags, the first being the highest bit. */
  function Flags(f7: bool, f6: bool, f5: bool, f4: bool, f3: bool, f2: bool, f1: bool, f0: bool): byte {
    (if f7 then 0x80 else 0) | (if f6 then 0x40 else 0) | (if f5 then 0x20 else 0) | (if f4 then 0x10 else 0)
    | (if f3 then 0x08 else 0) | (if f2 then 0x04 else 0) | (if f1 then 0x02 else 0) | (if f0 then 0x01 else 0)
  }

  lemma FlagsRead(f7: bool, f6: bool, f5: bool, f4: bool, f3: bool, f2: bool, f1: bool, f0: bool)
    ensures var b := Flags(f7, f6, f5, f4, f3, f2, f1, f0);
            && (b & 0x80 != 0 <==> f7) && (b & 0x40 != 0 <==> f6) && (b & 0x20 != 0 <==> f5) && (b & 0x10 != 0 <==> f4)
            && (b & 0x08 != 0 <==> f3) && (b & 0x04 != 0 <==> f2) && (b & 0x02 != 0 <==> f1) && (b & 0x01 != 0 <==> f0)
            && (b & 0x20) >> 5 == (if f5 then 1 else 0)
  {
  }

  /** The item a multiplexer writes for an optional field. */
  function Present(bytes: Option<seq<byte>>): Item {
    match bytes case None => Absent case Some(s) => Got(s)
  }
}
