/** src/pipeline/ringbuf/common.rs, `Idx` and `AtomicIdx`: four lanes in one 64-bit word, 16 bits each
    (an 8-bit wrapping index, the BOOKED bit, seven unused bits). Every word operation acts on one lane only,
    so a word may be read as four independent lanes. */
module PackedIdx {
  import opened Base

  /** `Idx::shift`: 16 bits a lane. */
  type Shift = s: bv7 | s == 0 || s == 16 || s == 32 || s == 48

  function ShiftOf(p: Priority): Shift
  {
    if p == 0 then 0 else if p == 1 then 16 else if p == 2 then 32 else 48
  }

  function Index(w: bv64, s: Shift): bv8
  {
    ((w >> s) & 0xFF) as bv8
  }

  function Any(w: bv64, s: Shift): bool
  {
    w & (0x100 << s) != 0
  }

  function Increment(w: bv64, s: Shift): bv64
  {
    (w & !(0xFF << s)) | (((Index(w, s) + 1) as bv64) << s)
  }

  function Set(w: bv64, s: Shift): bv64
  {
    w | (0x100 << s)
  }

  function Unset(w: bv64, s: Shift): bv64
  {
    w & !(0x100 << s)
  }

  /** The value `AtomicIdx::update` tries to install over `current`. */
  function Merge(current: bv64, idx: bv64, s: Shift): bv64
  {
    (current & !(0xFFFF << s)) | (idx & (0xFFFF << s))
  }

  // ---- the same word as four lanes -------------------------------------------------------------

  datatype Lane = Lane(idx: nat, booked: bool)

  function LaneOf(w: bv64, p: Priority): Lane
  {
    Lane(Index(w, ShiftOf(p)) as int, Any(w, ShiftOf(p)))
  }

  lemma ShiftsDiffer(p: Priority, q: Priority)
    ensures ShiftOf(p) == ShiftOf(q) <==> p == q
  {}

  lemma SuccInt(x: bv8)
    ensures (x + 1) as int == (x as int + 1) % 256
  {
    if x < 255 {
      assert (x + 1) as int == x as int + 1;
    } else {
      assert x == 255;
    }
  }

  lemma IncrementOwn(w: bv64, s: Shift)
    ensures Index(Increment(w, s), s) == Index(w, s) + 1
  {
    if s == 0 {} else if s == 16 {} else if s == 32 {} else {}
  }

  lemma IncrementOther(w: bv64, s: Shift, t: Shift)
    requires s != t
    ensures Index(Increment(w, s), t) == Index(w, t)
  {
    if s == 0 {} else if s == 16 {} else if s == 32 {} else {}
  }

  lemma IncrementFlag(w: bv64, s: Shift, t: Shift)
    ensures Any(Increment(w, s), t) == Any(w, t)
  {}

  lemma FlagIndex(w: bv64, s: Shift, t: Shift)
    ensures Index(Set(w, s), t) == Index(w, t) && Index(Unset(w, s), t) == Index(w, t)
  {}

  lemma SetOwn(w: bv64, s: Shift)
    ensures Any(Set(w, s), s)
  {
    if s == 0 {} else if s == 16 {} else if s == 32 {} else {}
  }

  lemma UnsetOwn(w: bv64, s: Shift)
    ensures !Any(Unset(w, s), s)
  {
    if s == 0 {} else if s == 16 {} else if s == 32 {} else {}
  }

  lemma FlagOther(w: bv64, s: Shift, t: Shift)
    requires s != t
    ensures Any(Set(w, s), t) == Any(w, t) && Any(Unset(w, s), t) == Any(w, t)
  {}

  lemma MergeOwn(c: bv64, w: bv64, s: Shift)
    ensures Index(Merge(c, w, s), s) == Index(w, s) && Any(Merge(c, w, s), s) == Any(w, s)
  {}

  lemma MergeOther(c: bv64, w: bv64, s: Shift, t: Shift)
    requires s != t
    ensures Index(Merge(c, w, s), t) == Index(c, t) && Any(Merge(c, w, s), t) == Any(c, t)
  {}

  // ---- homomorphism: word operations are lane operations ---------------------------------------

  /** `increment` wraps the index of lane p at 256 and touches nothing else, its own BOOKED bit included. */
  lemma IncrementLane(w: bv64, p: Priority, q: Priority)
    ensures LaneOf(Increment(w, ShiftOf(p)), q) ==
            if q == p then Lane((LaneOf(w, p).idx + 1) % 256, LaneOf(w, p).booked) else LaneOf(w, q)
  {
    hide Index, Any, Increment, ShiftOf;
    ShiftsDiffer(p, q);
    IncrementFlag(w, ShiftOf(p), ShiftOf(q));
    if p == q {
      IncrementOwn(w, ShiftOf(p));
      SuccInt(Index(w, ShiftOf(p)));
    } else {
      IncrementOther(w, ShiftOf(p), ShiftOf(q));
    }
  }

  /** `set` (also the fetch_or on the shared word) and `unset` touch the BOOKED bit of lane p only. */
  lemma SetLane(w: bv64, p: Priority, q: Priority)
    ensures LaneOf(Set(w, ShiftOf(p)), q) == if q == p then Lane(LaneOf(w, p).idx, true) else LaneOf(w, q)
  {
    hide Index, Any, Set, ShiftOf;
    ShiftsDiffer(p, q);
    FlagIndex(w, ShiftOf(p), ShiftOf(q));
    if p == q {
      SetOwn(w, ShiftOf(p));
    } else {
      FlagOther(w, ShiftOf(p), ShiftOf(q));
    }
  }

  lemma UnsetLane(w: bv64, p: Priority, q: Priority)
    ensures LaneOf(Unset(w, ShiftOf(p)), q) == if q == p then Lane(LaneOf(w, p).idx, false) else LaneOf(w, q)
  {
    hide Index, Any, Unset, ShiftOf;
    ShiftsDiffer(p, q);
    FlagIndex(w, ShiftOf(p), ShiftOf(q));
    if p == q {
      UnsetOwn(w, ShiftOf(p));
    } else {
      FlagOther(w, ShiftOf(p), ShiftOf(q));
    }
  }

  /** A CAS merge installs the caller's lane p over whatever the other lanes hold at that moment. */
  lemma MergeLane(current: bv64, idx: bv64, p: Priority, q: Priority)
    ensures LaneOf(Merge(current, idx, ShiftOf(p)), q) == if q == p then LaneOf(idx, p) else LaneOf(current, q)
  {
    hide Index, Any, Merge, ShiftOf;
    ShiftsDiffer(p, q);
    if p == q {
      MergeOwn(current, idx, ShiftOf(p));
    } else {
      MergeOther(current, idx, ShiftOf(p), ShiftOf(q));
    }
  }

  predicate IsCapacity(c: nat)
  {
    c == 1 || c == 2 || c == 4 || c == 8 || c == 16 || c == 32 || c == 64 || c == 128
  }

  /** `capacity - 1`, the mask of the source. */
  function MaskOf(c: nat): bv8
    requires IsCapacity(c)
  {
    if c == 1 then 0 else if c == 2 then 1 else if c == 4 then 3 else if c == 8 then 7
    else if c == 16 then 15 else if c == 32 then 31 else if c == 64 then 63 else 127
  }

  lemma Mask1(i: bv8) ensures (i & 0) as int == i as int % 1 {}
  lemma Mask2(i: bv8) ensures (i & 1) as int == i as int % 2 {}
  lemma Mask4(i: bv8) ensures (i & 3) as int == i as int % 4 {}
  lemma Mask8(i: bv8) ensures (i & 7) as int == i as int % 8 {}
  lemma Mask16(i: bv8) ensures (i & 15) as int == i as int % 16 {}
  lemma Mask32(i: bv8) ensures (i & 31) as int == i as int % 32 {}
  lemma Mask64(i: bv8) ensures (i & 63) as int == i as int % 64 {}
  lemma Mask128(i: bv8) ensures (i & 127) as int == i as int % 128 {}

  /** The slot of an index: with a power-of-two capacity, masking is the remainder. */
  lemma SlotOf(i: bv8, c: nat)
    requires IsCapacity(c)
    ensures (i & MaskOf(c)) as int == i as int % c
  {
    if c == 1 { Mask1(i); } else if c == 2 { Mask2(i); } else if c == 4 { Mask4(i); } else if c == 8 { Mask8(i); }
    else if c == 16 { Mask16(i); } else if c == 32 { Mask32(i); } else if c == 64 { Mask64(i); } else { Mask128(i); }
  }
}
