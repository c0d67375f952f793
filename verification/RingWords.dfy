/** src/pipeline/ringbuf/common.rs on the 64-bit words themselves: the machine of RingBuf with every index word a
    bv64, every update a word operation and every CAS a comparison of all 64 bits. Unpacking turns each of its steps
    into a step of that machine, so everything proved there holds here. */
module RingWords {
  import opened Base
  import opened PackedIdx
  import opened RingLane
  import opened RingBuf

  // ---- canonical words -------------------------------------------------------------------------

  /** The seven unused bits of every lane. Unpacking forgets them; no operation ever sets one. */
  const UNUSED: bv64 := 0xFE00_FE00_FE00_FE00

  predicate Canonical(w: bv64)
  {
    w & UNUSED == 0
  }

  lemma OperationsKeepCanonical(w: bv64, v: bv64, s: Shift)
    requires Canonical(w) && Canonical(v)
    ensures Canonical(Increment(w, s)) && Canonical(Set(w, s)) && Canonical(Unset(w, s)) && Canonical(Merge(w, v, s))
  {
    IncrementCanonical(w, s);
    FlagsCanonical(w, s);
    MergeCanonical(w, v, s);
    hide *;
  }

  lemma IncrementCanonical(w: bv64, s: Shift)
    requires Canonical(w)
    ensures Canonical(Increment(w, s))
  {
    if s == 0 {} else if s == 16 {} else if s == 32 {} else {}
  }

  lemma FlagsCanonical(w: bv64, s: Shift)
    requires Canonical(w)
    ensures Canonical(Set(w, s)) && Canonical(Unset(w, s))
  {
    if s == 0 {} else if s == 16 {} else if s == 32 {} else {}
  }

  lemma MergeCanonical(w: bv64, v: bv64, s: Shift)
    requires Canonical(w) && Canonical(v)
    ensures Canonical(Merge(w, v, s))
  {}

  /** The sixteen bits of a lane. */
  function Bits(w: bv64, s: Shift): bv64
  {
    w & (0xFFFF << s)
  }

  lemma SameBits(v: bv64, w: bv64, s: Shift)
    requires Canonical(v) && Canonical(w) && Index(v, s) == Index(w, s) && Any(v, s) == Any(w, s)
    ensures Bits(v, s) == Bits(w, s)
  {
    if s == 0 {} else if s == 16 {} else if s == 32 {} else {}
  }

  lemma AllBits(v: bv64, w: bv64)
    requires Bits(v, 0) == Bits(w, 0) && Bits(v, 16) == Bits(w, 16) && Bits(v, 32) == Bits(w, 32) &&
             Bits(v, 48) == Bits(w, 48)
    ensures v == w
  {}

  lemma SameLane(v: bv64, w: bv64, p: Priority)
    requires LaneOf(v, p) == LaneOf(w, p)
    ensures Index(v, ShiftOf(p)) == Index(w, ShiftOf(p)) && Any(v, ShiftOf(p)) == Any(w, ShiftOf(p))
  {
    hide Index, Any;
  }

  /** On canonical words unpacking loses nothing, so comparing unpacked words is comparing words. */
  lemma UnpackInjective(v: bv64, w: bv64)
    requires Canonical(v) && Canonical(w) && Unpack(v) == Unpack(w)
    ensures v == w
  {
    hide LaneOf, Canonical, Bits, Index, Any;
    assert Unpack(v)[0] == Unpack(w)[0] && Unpack(v)[1] == Unpack(w)[1];
    assert Unpack(v)[2] == Unpack(w)[2] && Unpack(v)[3] == Unpack(w)[3];
    SameLane(v, w, 0);
    SameLane(v, w, 1);
    SameLane(v, w, 2);
    SameLane(v, w, 3);
    SameBits(v, w, 0);
    SameBits(v, w, 16);
    SameBits(v, w, 32);
    SameBits(v, w, 48);
    AllBits(v, w);
  }

  /** Without that, two different words could unpack alike. */
  lemma UnpackForgets()
    ensures Unpack(0x0200) == Unpack(0) && !Canonical(0x0200)
  {
    assert LaneOf(0x0200, 0) == LaneOf(0, 0) && LaneOf(0x0200, 1) == LaneOf(0, 1);
    assert LaneOf(0x0200, 2) == LaneOf(0, 2) && LaneOf(0x0200, 3) == LaneOf(0, 3);
  }

  // ---- what is read from a word ----------------------------------------------------------------

  function ToInt(x: bv8): (n: nat)
    ensures n < 256
  {
    x as int
  }

  /** `is_full` as the source computes it, on eight bits. */
  predicate FullByte(w: bv8, r: bv8, cap: nat)
  {
    ToInt(w - r) == cap
  }

  lemma PredInt(y: bv8)
    requires y != 0
    ensures ToInt(y - 1) == ToInt(y) - 1
  {
    var z := y - 1;
    assert z < 255 && z + 1 == y;
    assert (z + 1) as int == z as int + 1;
  }

  lemma NextInt(x: bv8)
    ensures ToInt(x + 1) == (ToInt(x) + 1) % 256
  {
    SuccInt(x);
  }

  lemma ZeroInt(x: bv8)
    ensures x - 0 == x && ToInt(0) == 0
  {}

  lemma Borrow(x: bv8, y: bv8)
    ensures x - (y - 1) == (x - y) + 1
  {}

  lemma SameInt(w: bv8, r: bv8)
    ensures w == r <==> ToInt(w) == ToInt(r)
  {
    if w as int == r as int {
      assert (w as int) as bv8 == w && (r as int) as bv8 == r;
    }
  }

  /** `wrapping_sub` on u8. */
  lemma {:induction false} SubInt(x: bv8, y: bv8)
    ensures ToInt(x - y) == (ToInt(x) - ToInt(y)) % 256
    decreases ToInt(y)
  {
    hide ToInt;
    ZeroInt(x);
    if y != 0 {
      PredInt(y);
      SubInt(x, y - 1);
      Borrow(x, y);
      NextInt(x - y);
      WrapDown(ToInt(x - y), ToInt(x) - ToInt(y));
    }
  }

  lemma WrapDown(d: int, n: int)
    requires 0 <= d < 256 && (d + 1) % 256 == (n + 1) % 256
    ensures d == n % 256
  {}

  lemma LaneInt(w: bv64, p: Priority)
    ensures LaneOf(w, p).idx == ToInt(Index(w, ShiftOf(p)))
  {}

  lemma SlotInt(i: bv8, cap: nat)
    requires IsCapacity(cap)
    ensures ToInt(i & MaskOf(cap)) == ToInt(i) % cap
  {
    SlotOf(i, cap);
  }

  lemma FullInt(w: bv8, r: bv8, cap: nat)
    ensures FullByte(w, r, cap) <==> IsFull(ToInt(w), ToInt(r), cap)
  {
    hide ToInt;
    SubInt(w, r);
  }

  /** `is_full`, `is_empty` and the slot of an index, on words and on unpacked lanes. */
  lemma TestsOnWords(r: bv64, w: bv64, p: Priority, cap: nat)
    requires IsCapacity(cap)
    ensures var x, y := Index(w, ShiftOf(p)), Index(r, ShiftOf(p));
            && (FullByte(x, y, cap) <==> IsFull(LaneOf(w, p).idx, LaneOf(r, p).idx, cap))
            && (x == y <==> LaneOf(w, p).idx == LaneOf(r, p).idx)
            && ToInt(x & MaskOf(cap)) == LaneOf(w, p).idx % cap
  {
    hide ToInt, Index, LaneOf, MaskOf, ShiftOf, IsCapacity, FullByte, IsFull;
    var x, y := Index(w, ShiftOf(p)), Index(r, ShiftOf(p));
    LaneInt(w, p);
    LaneInt(r, p);
    FullInt(x, y, cap);
    SameInt(x, y);
    SlotInt(x, cap);
  }

  // ---- the machine on words --------------------------------------------------------------------

  datatype WordWriter<T> =
    WordWriter(local: bv64, cached: bv64, lane: Priority, phase: WPhase<T>, cas: Option<bv64>)
  datatype WordReader = WordReader(local: bv64, cached: bv64, lane: Priority, phase: RPhase, cas: Option<bv64>)

  datatype WordState<T> = WordState(
    idxW: bv64, idxR: bv64, cells: seq<seq<Slot<T>>>,
    writers: seq<WordWriter<T>>, readers: seq<WordReader>, hists: seq<Hist<T>>)

  function UnpackOption(o: Option<bv64>): Option<Word>
  {
    if o.Some? then Some(Unpack(o.value)) else None
  }

  function UnpackWriter<T>(w: WordWriter<T>): Writer<T>
  {
    Writer(Unpack(w.local), Unpack(w.cached), w.lane, w.phase, UnpackOption(w.cas))
  }

  function UnpackReader(r: WordReader): Reader
  {
    Reader(Unpack(r.local), Unpack(r.cached), r.lane, r.phase, UnpackOption(r.cas))
  }

  function UnpackState<T>(s: WordState<T>): State<T>
  {
    State(Unpack(s.idxW), Unpack(s.idxR), s.cells,
          seq(|s.writers|, i requires 0 <= i < |s.writers| => UnpackWriter(s.writers[i])),
          seq(|s.readers|, i requires 0 <= i < |s.readers| => UnpackReader(s.readers[i])),
          s.hists)
  }

  predicate CanonicalHandle(local: bv64, cached: bv64, cas: Option<bv64>)
  {
    Canonical(local) && Canonical(cached) && (cas.Some? ==> Canonical(cas.value))
  }

  ghost predicate CanonicalState<T>(s: WordState<T>)
  {
    && Canonical(s.idxW) && Canonical(s.idxR)
    && (forall i :: 0 <= i < |s.writers| ==>
          CanonicalHandle(s.writers[i].local, s.writers[i].cached, s.writers[i].cas))
    && (forall i :: 0 <= i < |s.readers| ==>
          CanonicalHandle(s.readers[i].local, s.readers[i].cached, s.readers[i].cas))
  }

  /** What an access does to the writer's own word: `push` increments, `book` sets the flag, `commit` unsets and
      increments. */
  function WriterWord<T>(local: bv64, p: Priority, l: LaneState<T>, a: LaneAct<T>): bv64
  {
    if a.WriteSlot? && l.wph.WWrite? then
      if l.wph.book then Set(local, ShiftOf(p)) else Increment(local, ShiftOf(p))
    else if a.CommitStart? then Increment(Unset(local, ShiftOf(p)), ShiftOf(p))
    else local
  }

  function ReaderWord<T>(local: bv64, p: Priority, a: LaneAct<T>): bv64
  {
    if a.Take? then Increment(local, ShiftOf(p)) else local
  }

  /** One access. Tests and slots are those of the lane, read through `index` and `any`; words change by word
      operations, and a CAS succeeds when all 64 bits agree. */
  function WordApply<T>(c: Config, s: WordState<T>, st: Step<T>): WordState<T>
    requires Shape(c, UnpackState(s)) && CanStep(c, UnpackState(s), st)
  {
    var p, u := st.p, UnpackState(s);
    var wi, ri := WOf(c, p), ROf(c, p);
    var w, r := s.writers[wi], s.readers[ri];
    var l := View(c, u, p);
    match st
    case Local(_, a) =>
      var l' := Next(c.cap, l, a);
      var h := s.hists[p := l'.hist];
      var s1 := s.(cells := s.cells[p := l'.cells]);
      if IsWriterAct(a) then
        var w' := WordWriter(WriterWord(w.local, p, l, a), if a.LoadR? then s.idxR else w.cached, p, l'.wph, None);
        s1.(writers := s.writers[wi := w'],
            idxW := if a.FetchOr? then Set(s.idxW, ShiftOf(p)) else s.idxW,
            hists := if a.LoadR? then RefreshHists(c, u, h, true, p) else h)
      else
        var r' := WordReader(ReaderWord(r.local, p, a), if a.LoadW? then s.idxW else r.cached, p, l'.rph, None);
        s1.(readers := s.readers[ri := r'], hists := if a.LoadW? then RefreshHists(c, u, h, false, p) else h)
    case StoreW(_) =>
      s.(idxW := w.local, writers := s.writers[wi := w.(phase := WIdle)],
         hists := s.hists[p := Next(c.cap, l, PublishW).hist])
    case CasLoadW(_) => s.(writers := s.writers[wi := w.(cas := Some(s.idxW))])
    case CasW(_, spurious) =>
      if !spurious && w.cas == Some(s.idxW) then
        s.(idxW := Merge(s.idxW, w.local, ShiftOf(p)), writers := s.writers[wi := w.(phase := WIdle, cas := None)],
           hists := s.hists[p := Next(c.cap, l, PublishW).hist])
      else s.(writers := s.writers[wi := w.(cas := Some(s.idxW))])
    case StoreR(_) =>
      s.(idxR := r.local, readers := s.readers[ri := r.(phase := RIdle)],
         hists := s.hists[p := Next(c.cap, l, PublishR).hist])
    case CasLoadR(_) => s.(readers := s.readers[ri := r.(cas := Some(s.idxR))])
    case CasR(_, spurious) =>
      if !spurious && r.cas == Some(s.idxR) then
        s.(idxR := Merge(s.idxR, r.local, ShiftOf(p)), readers := s.readers[ri := r.(phase := RIdle, cas := None)],
           hists := s.hists[p := Next(c.cap, l, PublishR).hist])
      else s.(readers := s.readers[ri := r.(cas := Some(s.idxR))])
  }

  lemma NextWriterLane<T>(cap: nat, l: LaneState<T>, a: LaneAct<T>)
    requires 0 < cap == |l.cells| && Enabled(cap, l, a) && IsWriterAct(a)
    ensures var i := l.wLocal.idx;
            Next(cap, l, a).wLocal ==
            if a.CommitStart? then Lane(Succ(i), false)
            else if !a.WriteSlot? then l.wLocal
            else if l.wph.book then Lane(i, true) else Lane(Succ(i), l.wLocal.booked)
  {
    hide IsFull, Succ;
  }

  lemma WriterWordUnpacks<T>(c: Config, s: State<T>, local: bv64, p: Priority, l: LaneState<T>, a: LaneAct<T>)
    requires 0 < c.cap == |l.cells| && Enabled(c.cap, l, a) && IsWriterAct(a) && l.wLocal == Unpack(local)[p] &&
             Canonical(local)
    ensures Unpack(WriterWord(local, p, l, a)) == Unpack(local)[p := Next(c.cap, l, a).wLocal]
    ensures Canonical(WriterWord(local, p, l, a))
  {
    NextWriterLane(c.cap, l, a);
    hide Unpack, Increment, Set, Unset, Canonical, Next, Enabled, IsWriterAct, Succ, ShiftOf;
    var k := ShiftOf(p);
    if a.CommitStart? {
      UnpackUnset(local, p);
      UnpackIncrement(Unset(local, k), p);
      OperationsKeepCanonical(local, local, k);
      OperationsKeepCanonical(Unset(local, k), local, k);
      UpdatedTwice(Unpack(local), p, l.wLocal.idx);
    } else if a.WriteSlot? {
      UnpackIncrement(local, p);
      UnpackSet(local, p);
      OperationsKeepCanonical(local, local, k);
    } else {
      SameWord(Unpack(local), p);
    }
  }

  lemma NextReaderIndex<T>(cap: nat, l: LaneState<T>, a: LaneAct<T>)
    requires 0 < cap == |l.cells| && Enabled(cap, l, a) && IsReaderAct(a)
    ensures Next(cap, l, a).rLocal == if a.Take? then Succ(l.rLocal) else l.rLocal
  {
    hide IsFull, Succ;
  }

  lemma UpdatedTwice(w: Word, p: Priority, i: nat)
    ensures var v := w[p := Lane(i, false)]; v[p := Lane(Succ(v[p].idx), v[p].booked)] == w[p := Lane(Succ(i), false)]
  {
    hide Succ;
  }

  lemma SameWord(w: Word, p: Priority)
    ensures w[p := Lane(w[p].idx, w[p].booked)] == w == w[p := w[p]]
  {}

  lemma ReaderWordUnpacks<T>(c: Config, local: bv64, p: Priority, l: LaneState<T>, a: LaneAct<T>)
    requires 0 < c.cap == |l.cells| && Enabled(c.cap, l, a) && IsReaderAct(a) && l.rLocal == Unpack(local)[p].idx &&
             Canonical(local)
    ensures Unpack(ReaderWord(local, p, a)) ==
            Unpack(local)[p := Lane(Next(c.cap, l, a).rLocal, Unpack(local)[p].booked)]
    ensures Canonical(ReaderWord(local, p, a))
  {
    NextReaderIndex(c.cap, l, a);
    hide Unpack, Increment, Canonical, Next, Enabled, IsReaderAct, Succ, ShiftOf;
    if a.Take? {
      UnpackIncrement(local, p);
      OperationsKeepCanonical(local, local, ShiftOf(p));
    } else {
      SameWord(Unpack(local), p);
    }
  }

  /** Comparing 64 bits is comparing four lanes. */
  lemma CasAgrees(cas: Option<bv64>, current: bv64)
    requires Canonical(current) && (cas.Some? ==> Canonical(cas.value))
    ensures cas == Some(current) <==> UnpackOption(cas) == Some(Unpack(current))
  {
    hide Unpack, Canonical;
    if cas.Some? && Unpack(cas.value) == Unpack(current) {
      UnpackInjective(cas.value, current);
    }
  }

  lemma UnpackUpdateW<T>(s: WordState<T>, i: nat, w: WordWriter<T>)
    requires i < |s.writers|
    ensures UnpackState(s.(writers := s.writers[i := w])).writers == UnpackState(s).writers[i := UnpackWriter(w)]
  {
    hide Unpack;
  }

  lemma UnpackUpdateR<T>(s: WordState<T>, i: nat, r: WordReader)
    requires i < |s.readers|
    ensures UnpackState(s.(readers := s.readers[i := r])).readers == UnpackState(s).readers[i := UnpackReader(r)]
  {
    hide Unpack;
  }

  lemma WriterStepUnpacks<T>(c: Config, s: WordState<T>, st: Step<T>)
    requires CanonicalState(s) && Shape(c, UnpackState(s)) && CanStep(c, UnpackState(s), st)
    requires st.Local? && IsWriterAct(st.a)
    ensures UnpackState(WordApply(c, s, st)) == Apply(c, UnpackState(s), st)
    ensures CanonicalState(WordApply(c, s, st))
  {
    hide Unpack, Canonical, Set, WriterWord, RefreshHists;
    var p := st.p;
    var w := s.writers[WOf(c, p)];
    UnpackUpdateW(s, WOf(c, p), WordApply(c, s, st).writers[WOf(c, p)]);
    WriterWordUnpacks(c, UnpackState(s), w.local, p, View(c, UnpackState(s), p), st.a);
    UnpackSet(s.idxW, p);
    OperationsKeepCanonical(s.idxW, w.local, ShiftOf(p));
    hide Next, View, Enabled;
  }

  lemma ReaderStepUnpacks<T>(c: Config, s: WordState<T>, st: Step<T>)
    requires CanonicalState(s) && Shape(c, UnpackState(s)) && CanStep(c, UnpackState(s), st)
    requires st.Local? && IsReaderAct(st.a)
    ensures UnpackState(WordApply(c, s, st)) == Apply(c, UnpackState(s), st)
  {
    hide Unpack, Canonical, Set, Increment, ReaderWord, RefreshHists;
    var p := st.p;
    var r := s.readers[ROf(c, p)];
    UnpackUpdateR(s, ROf(c, p), WordApply(c, s, st).readers[ROf(c, p)]);
    ReaderWordUnpacks(c, r.local, p, View(c, UnpackState(s), p), st.a);
    hide Next, View, Enabled;
  }

  lemma ReaderStepCanonical<T>(c: Config, s: WordState<T>, st: Step<T>)
    requires CanonicalState(s) && Shape(c, UnpackState(s)) && CanStep(c, UnpackState(s), st)
    requires st.Local? && IsReaderAct(st.a)
    ensures CanonicalState(WordApply(c, s, st))
  {
    hide Unpack, Canonical, Set, Increment, ReaderWord, RefreshHists, Succ;
    var p := st.p;
    ReaderWordUnpacks(c, s.readers[ROf(c, p)].local, p, View(c, UnpackState(s), p), st.a);
    hide Next, View, Enabled;
  }

  lemma PublishWUnpacks<T>(c: Config, s: WordState<T>, st: Step<T>)
    requires CanonicalState(s) && Shape(c, UnpackState(s)) && CanStep(c, UnpackState(s), st)
    requires st.StoreW? || st.CasLoadW? || st.CasW?
    ensures UnpackState(WordApply(c, s, st)) == Apply(c, UnpackState(s), st)
  {
    hide Unpack, Canonical, Merge, Next, View, Enabled, IsCapacity;
    var p := st.p;
    var w := s.writers[WOf(c, p)];
    UnpackUpdateW(s, WOf(c, p), WordApply(c, s, st).writers[WOf(c, p)]);
    assert CanonicalHandle(w.local, w.cached, w.cas);
    CasAgrees(w.cas, s.idxW);
    UnpackMerge(s.idxW, w.local, p);
    hide CanonicalState, CanonicalHandle;
  }

  lemma CanonicalUpdateW<T>(s: WordState<T>, s': WordState<T>, i: nat, x: WordWriter<T>)
    requires CanonicalState(s) && s'.readers == s.readers && s'.idxR == s.idxR && Canonical(s'.idxW)
    requires i < |s.writers| && s'.writers == s.writers[i := x] && CanonicalHandle(x.local, x.cached, x.cas)
    ensures CanonicalState(s')
  {
    hide Canonical, CanonicalHandle;
  }

  lemma PublishWCanonical<T>(c: Config, s: WordState<T>, st: Step<T>)
    requires CanonicalState(s) && Shape(c, UnpackState(s)) && CanStep(c, UnpackState(s), st)
    requires st.StoreW? || st.CasLoadW? || st.CasW?
    ensures CanonicalState(WordApply(c, s, st))
  {
    hide Unpack, Canonical, Merge, Next, View, Enabled, IsCapacity;
    var p := st.p;
    var w := s.writers[WOf(c, p)];
    assert CanonicalHandle(w.local, w.cached, w.cas);
    OperationsKeepCanonical(s.idxW, w.local, ShiftOf(p));
    hide CanonicalState, CanStep, Shape;
    var i, s' := WOf(c, p), WordApply(c, s, st);
    if st.StoreW? {
      CanonicalUpdateW(s, s', i, w.(phase := WIdle));
    } else if st.CasW? && !st.spurious && w.cas == Some(s.idxW) {
      CanonicalUpdateW(s, s', i, w.(phase := WIdle, cas := None));
    } else {
      CanonicalUpdateW(s, s', i, w.(cas := Some(s.idxW)));
    }
  }

  lemma PublishRUnpacks<T>(c: Config, s: WordState<T>, st: Step<T>)
    requires CanonicalState(s) && Shape(c, UnpackState(s)) && CanStep(c, UnpackState(s), st)
    requires st.StoreR? || st.CasLoadR? || st.CasR?
    ensures UnpackState(WordApply(c, s, st)) == Apply(c, UnpackState(s), st)
  {
    hide Unpack, Canonical, Merge, Next, View, Enabled, IsCapacity;
    var p := st.p;
    var r := s.readers[ROf(c, p)];
    UnpackUpdateR(s, ROf(c, p), WordApply(c, s, st).readers[ROf(c, p)]);
    assert CanonicalHandle(r.local, r.cached, r.cas);
    CasAgrees(r.cas, s.idxR);
    UnpackMerge(s.idxR, r.local, p);
    hide CanonicalState, CanonicalHandle;
  }

  lemma CanonicalUpdateR<T>(s: WordState<T>, s': WordState<T>, i: nat, x: WordReader)
    requires CanonicalState(s) && s'.writers == s.writers && s'.idxW == s.idxW && Canonical(s'.idxR)
    requires i < |s.readers| && s'.readers == s.readers[i := x] && CanonicalHandle(x.local, x.cached, x.cas)
    ensures CanonicalState(s')
  {
    hide Canonical, CanonicalHandle;
  }

  lemma PublishRCanonical<T>(c: Config, s: WordState<T>, st: Step<T>)
    requires CanonicalState(s) && Shape(c, UnpackState(s)) && CanStep(c, UnpackState(s), st)
    requires st.StoreR? || st.CasLoadR? || st.CasR?
    ensures CanonicalState(WordApply(c, s, st))
  {
    hide Unpack, Canonical, Merge, Next, View, Enabled, IsCapacity;
    var p := st.p;
    var r := s.readers[ROf(c, p)];
    assert CanonicalHandle(r.local, r.cached, r.cas);
    OperationsKeepCanonical(s.idxR, r.local, ShiftOf(p));
    hide CanonicalState, CanStep, Shape;
    var i, s' := ROf(c, p), WordApply(c, s, st);
    if st.StoreR? {
      CanonicalUpdateR(s, s', i, r.(phase := RIdle));
    } else if st.CasR? && !st.spurious && r.cas == Some(s.idxR) {
      CanonicalUpdateR(s, s', i, r.(phase := RIdle, cas := None));
    } else {
      CanonicalUpdateR(s, s', i, r.(cas := Some(s.idxR)));
    }
  }

  /** Every step on words is the machine's step on their lanes, and words stay canonical. */
  lemma StepUnpacks<T>(c: Config, s: WordState<T>, st: Step<T>)
    requires CanonicalState(s) && Shape(c, UnpackState(s)) && CanStep(c, UnpackState(s), st)
    ensures UnpackState(WordApply(c, s, st)) == Apply(c, UnpackState(s), st)
    ensures CanonicalState(WordApply(c, s, st))
  {
    hide WordApply, Apply, CanonicalState, UnpackState;
    if st.StoreW? || st.CasLoadW? || st.CasW? {
      PublishWUnpacks(c, s, st);
      PublishWCanonical(c, s, st);
    } else if !st.Local? {
      PublishRUnpacks(c, s, st);
      PublishRCanonical(c, s, st);
    } else if IsWriterAct(st.a) {
      WriterStepUnpacks(c, s, st);
    } else {
      ReaderStepUnpacks(c, s, st);
      ReaderStepCanonical(c, s, st);
    }
  }

  // ---- every run -------------------------------------------------------------------------------

  function WordInit<T>(c: Config): WordState<T>
    requires IsCapacity(c.cap)
  {
    var w: WordWriter<T> := WordWriter(0, 0, 0, WIdle, None);
    var r := WordReader(0, 0, 0, RIdle, None);
    WordState(0, 0, seq(4, _ => seq(c.cap, _ => Free)),
              if c.wMerge then [w, w, w, w] else [w], if c.rMerge then [r, r, r, r] else [r],
              seq(4, _ => Hist([], [], None, None, 0, 0, 0, 0)))
  }

  lemma InitUnpacks<T>(c: Config)
    requires IsCapacity(c.cap)
    ensures UnpackState(WordInit<T>(c)) == InitState(c) && CanonicalState(WordInit<T>(c))
  {
    hide IsCapacity, Unpack, Canonical;
    UnpackZero();
  }

  lemma UnpackZero()
    ensures Unpack(0) == ZERO && Canonical(0)
  {
    assert LaneOf(0, 0) == LaneOf(0, 1) == LaneOf(0, 2) == LaneOf(0, 3) == Lane(0, false);
    hide LaneOf;
  }

  ghost predicate IsWordRun<T>(c: Config, run: seq<WordState<T>>, steps: seq<Step<T>>)
    requires IsCapacity(c.cap)
  {
    && |run| == |steps| + 1 && run[0] == WordInit(c)
    && forall i :: 0 <= i < |steps| ==>
         && Shape(c, UnpackState(run[i])) && CanStep(c, UnpackState(run[i]), steps[i])
         && run[i + 1] == WordApply(c, run[i], steps[i])
  }

  function UnpackRun<T>(run: seq<WordState<T>>): seq<State<T>>
  {
    seq(|run|, i requires 0 <= i < |run| => UnpackState(run[i]))
  }

  lemma {:induction false} RunCanonical<T>(c: Config, run: seq<WordState<T>>, steps: seq<Step<T>>, i: nat)
    requires IsCapacity(c.cap) && IsWordRun(c, run, steps) && i < |run|
    ensures CanonicalState(run[i])
  {
    hide WordApply, CanonicalState, UnpackState, Shape, CanStep;
    if i == 0 {
      InitUnpacks<T>(c);
    } else {
      RunCanonical(c, run, steps, i - 1);
      StepUnpacks(c, run[i - 1], steps[i - 1]);
    }
  }

  /** Every run on 64-bit words unpacks to a run of the machine. */
  lemma WordRunUnpacks<T>(c: Config, run: seq<WordState<T>>, steps: seq<Step<T>>)
    requires IsCapacity(c.cap) && IsWordRun(c, run, steps)
    ensures IsRun(c, UnpackRun(run), steps)
  {
    hide WordApply, Apply, CanonicalState, UnpackState, Shape, CanStep;
    InitUnpacks<T>(c);
    forall i | 0 <= i < |steps| ensures UnpackState(run[i + 1]) == Apply(c, UnpackState(run[i]), steps[i]) {
      RunCanonical(c, run, steps, i);
      StepUnpacks(c, run[i], steps[i]);
    }
  }

  /** So on the packed words, too: over any run of any handles, what was pulled from a lane is a prefix of what was
      published on it, and the rest is its queue of at most `cap` elements. */
  lemma WordsArePrefix<T>(c: Config, run: seq<WordState<T>>, steps: seq<Step<T>>, i: nat, p: Priority)
    requires IsCapacity(c.cap) && IsWordRun(c, run, steps) && i < |run|
    ensures GlobalInv(c, UnpackState(run[i]))
    ensures run[i].hists[p].pulled <= run[i].hists[p].log
    ensures run[i].hists[p].log == run[i].hists[p].pulled + Queue(c, UnpackState(run[i]), p).queue
    ensures |Queue(c, UnpackState(run[i]), p).queue| <= c.cap
  {
    WordRunUnpacks(c, run, steps);
    assert UnpackRun(run)[i] == UnpackState(run[i]);
    hide IsRun, IsWordRun, GlobalInv, UnpackRun;
    PulledIsPrefix(c, UnpackRun(run), steps, i, p);
  }
}
