/** src/pipeline/ringbuf/common.rs, one lane: its slots, the shared read and write indices, the writer's and the
    reader's private copies. Every atomic access and every slot access is one action; a writer and a reader
    interleave freely. History variables count without wrapping; the machine itself only sees indices modulo 256. */
module RingLane {
  import opened Base
  import opened PackedIdx

  datatype Slot<T> = Free | Full(t: T)

  /** Where the writer stands between its accesses to shared memory. `book` tells `book` from `push`. */
  datatype WPhase<T> = WIdle | WCheck(t: T, book: bool) | WWrite(t: T, book: bool) | WBooking | WPublishing

  /** Where the reader stands. `peek` tells `peek_mut` from `pull`. */
  datatype RPhase = RIdle | RCheck(peek: bool) | RTake | RPeek | RPublishing

  /** log: every element published so far, first to last. pulled: every element read out of a slot.
      booked: the visible booked element. pending: an element in its slot but not yet visible.
      wl: elements in slots up to the writer's own index. rs, rc, wc: unwrapped values of the shared read index and of
      the two stale copies. */
  datatype Hist<T> = Hist(log: seq<T>, pulled: seq<T>, booked: Option<T>, pending: Option<T>, wl: nat, rs: nat,
      rc: nat, wc: nat)

  datatype LaneState<T> = LaneState(
    idxW: Lane, idxR: nat, cells: seq<Slot<T>>,
    wLocal: Lane, wCached: nat, wph: WPhase<T>,
    rLocal: nat, rCached: Lane, rph: RPhase,
    hist: Hist<T>)

  datatype LaneAct<T> =
    | PushStart(t: T) | BookStart(t: T) | LoadR | WriteSlot | FetchOr | Edit(t: T) | CommitStart | PublishW
    | PullStart(peek: bool) | LoadW | Take | PublishR | ReaderEdit(t: T) | PeekEnd
    | RefreshR | RefreshW | Stutter

  /** `is_full` on wrapped indices. */
  predicate IsFull(w: nat, r: nat, cap: nat)
  {
    (w - r) % 256 == cap
  }

  /** A count as an eight-bit index. */
  function Wrap(n: nat): nat
  {
    n % 256
  }

  lemma WrapSucc(n: nat)
    ensures Succ(Wrap(n)) == Wrap(n + 1)
  {}

  function Succ(idx: nat): nat
  {
    (idx + 1) % 256
  }

  function Init<T>(cap: nat): LaneState<T>
  {
    LaneState(Lane(0, false), 0, seq(cap, _ => Free), Lane(0, false), 0, WIdle, 0, Lane(0, false), RIdle,
              Hist([], [], None, None, 0, 0, 0, 0))
  }

  predicate Enabled<T>(cap: nat, l: LaneState<T>, a: LaneAct<T>)
  {
    match a
    // `push` and `book` are never mixed on a lane: the wrappers offer one or the other.
    case PushStart(_) => l.wph.WIdle? && !l.wLocal.booked
    case BookStart(_) => l.wph.WIdle? && !l.wLocal.booked
    case LoadR => l.wph.WCheck?
    case WriteSlot => l.wph.WWrite?
    case FetchOr => l.wph.WBooking?
    case Edit(_) => l.wph.WIdle? && l.wLocal.booked
    case CommitStart => l.wph.WIdle? && l.wLocal.booked
    case PublishW => l.wph.WPublishing?
    case PullStart(_) => l.rph.RIdle?
    case LoadW => l.rph.RCheck?
    case Take => l.rph.RTake?
    case PublishR => l.rph.RPublishing?
    case ReaderEdit(_) => l.rph.RPeek?
    case PeekEnd => l.rph.RPeek?
    case RefreshR => l.wph.WIdle?
    case RefreshW => l.rph.RIdle?
    case Stutter => true
  }

  function Next<T>(cap: nat, l: LaneState<T>, a: LaneAct<T>): LaneState<T>
    requires 0 < cap == |l.cells| && Enabled(cap, l, a)
  {
    var h := l.hist;
    var ws, rs := l.wLocal.idx % cap, l.rLocal % cap;
    match a
    case PushStart(t) => l.(wph := if IsFull(l.wLocal.idx, l.wCached, cap) then WCheck(t, false) else WWrite(t, false))
    case BookStart(t) => l.(wph := if IsFull(l.wLocal.idx, l.wCached, cap) then WCheck(t, true) else WWrite(t, true))
    case LoadR =>
      l.(wCached := l.idxR, hist := h.(rc := h.rs),
         wph := if IsFull(l.wLocal.idx, l.idxR, cap) then WIdle else WWrite(l.wph.t, l.wph.book))
    case WriteSlot =>
      if l.wph.book then
        l.(cells := l.cells[ws := Full(l.wph.t)], wLocal := Lane(l.wLocal.idx, true), wph := WBooking,
           hist := h.(pending := Some(l.wph.t)))
      else
        l.(cells := l.cells[ws := Full(l.wph.t)], wLocal := Lane(Succ(l.wLocal.idx), l.wLocal.booked),
            wph := WPublishing,
           hist := h.(pending := Some(l.wph.t), wl := h.wl + 1))
    case FetchOr => l.(idxW := Lane(l.idxW.idx, true), wph := WIdle, hist := h.(booked := h.pending, pending := None))
    case Edit(t) => l.(cells := l.cells[ws := Full(t)], hist := h.(booked := Some(t)))
    case CommitStart =>
      l.(wLocal := Lane(Succ(l.wLocal.idx), false), wph := WPublishing, hist := h.(pending := h.booked, wl := h.wl + 1))
    case PublishW =>
      l.(idxW := l.wLocal, wph := WIdle,
         hist := h.(log := if h.pending.Some? then h.log + [h.pending.value] else h.log, booked := None,
             pending := None))
    case PullStart(peek) => l.(rph := if l.rLocal == l.rCached.idx then RCheck(peek) else if peek then RPeek else RTake)
    case LoadW =>
      l.(rCached := l.idxW, hist := h.(wc := |h.log|),
         rph := if l.rLocal == l.idxW.idx then RIdle else if l.rph.peek then RPeek else RTake)
    case Take =>
      l.(cells := l.cells[rs := Free], rLocal := Succ(l.rLocal), rph := RPublishing,
         hist := h.(pulled := if l.cells[rs].Full? then h.pulled + [l.cells[rs].t] else h.pulled))
    case PublishR => l.(idxR := l.rLocal, rph := RIdle, hist := h.(rs := |h.pulled|))
    case ReaderEdit(t) =>
      l.(cells := l.cells[rs := Full(t)],
          hist := h.(log := if |h.pulled| < |h.log| then h.log[|h.pulled| := t] else h.log))
    case PeekEnd => l.(rph := RIdle)
    case RefreshR => l.(wCached := l.idxR, hist := h.(rc := h.rs))
    case RefreshW => l.(rCached := l.idxW, hist := h.(wc := |h.log|))
    case Stutter => l
  }

  // ---- invariant -------------------------------------------------------------------------------

  /** The element private to the writer: booked, or written and not yet published. */
  function Private<T>(l: LaneState<T>): Option<T>
  {
    if l.hist.pending.Some? then l.hist.pending else l.hist.booked
  }

  /** What slot (i mod cap) must hold, for the cap positions from the reader's own index on. */
  function Prescribed<T>(l: LaneState<T>, i: nat): Slot<T>
  {
    if i < |l.hist.log| then Full(l.hist.log[i])
    else if i == |l.hist.log| && Private(l).Some? then Full(Private(l).value)
    else Free
  }

  ghost predicate Counters<T>(cap: nat, l: LaneState<T>)
  {
    var h := l.hist;
    && h.rc <= h.rs <= |h.pulled| <= h.wc <= |h.log| <= h.wl <= h.rc + cap
    && h.wl == |h.log| + (if l.wph.WPublishing? then 1 else 0)
    && |h.pulled| == h.rs + (if l.rph.RPublishing? then 1 else 0)
    && (Private(l).Some? || l.wph.WWrite? ==> |h.log| < h.rc + cap)
    && (l.rph.RTake? || l.rph.RPeek? ==> |h.pulled| < h.wc)
    && h.pulled == h.log[..|h.pulled|]
  }

  ghost predicate Indices<T>(l: LaneState<T>)
  {
    var h := l.hist;
    && l.wLocal.idx == Wrap(h.wl) && l.idxW.idx == Wrap(|h.log|) && l.rCached.idx == Wrap(h.wc)
    && l.rLocal == Wrap(|h.pulled|) && l.idxR == Wrap(h.rs) && l.wCached == Wrap(h.rc)
  }

  ghost predicate Flags<T>(l: LaneState<T>)
  {
    var h := l.hist;
    && (l.idxW.booked <==> h.booked.Some?)
    && (h.pending.Some? <==> l.wph.WBooking? || l.wph.WPublishing?)
    && (l.wph.WPublishing? ==> !l.wLocal.booked && (h.booked.Some? ==> h.booked == h.pending))
    && (l.wph.WBooking? ==> l.wLocal.booked && h.booked.None?)
    && (l.wph.WCheck? || l.wph.WWrite? ==> !l.wLocal.booked && h.booked.None?)
    && (l.wph.WIdle? ==> (l.wLocal.booked <==> h.booked.Some?))
  }

  ghost predicate Slots<T>(cap: nat, l: LaneState<T>)
    requires 0 < cap == |l.cells|
  {
    forall i: nat {:trigger Prescribed(l, i)} :: |l.hist.pulled| <= i < |l.hist.pulled| + cap ==>
        l.cells[i % cap] == Prescribed(l, i)
  }

  ghost predicate Inv<T>(cap: nat, l: LaneState<T>)
  {
    IsCapacity(cap) && |l.cells| == cap && Counters(cap, l) && Indices(l) && Flags(l) && Slots(cap, l)
  }

  // ---- arithmetic of the wrap ------------------------------------------------------------------

  /** A power-of-two capacity divides 256, so the slot of a wrapped index is the slot of the count. */
  lemma SlotOfCount(cap: nat, n: nat)
    requires IsCapacity(cap)
    ensures Wrap(n) % cap == n % cap
  {
    var a, b := n / 256, n % 256;
    DivMod(b, cap);
    var q, r := b / cap, b % cap;
    var k := if cap == 1 then 256 else if cap == 2 then 128 else if cap == 4 then 64 else if cap == 8 then 32
             else if cap == 16 then 16 else if cap == 32 then 8 else if cap == 64 then 4 else 2;
    assert cap * k == 256;
    Regroup(a, k, q, cap, r);
    ModUnique(n, k * a + q, cap, r);
  }

  lemma DivMod(b: nat, c: nat)
    requires c > 0
    ensures b == (b / c) * c + b % c && 0 <= b % c < c && b / c >= 0
  {}

  lemma Regroup(a: nat, k: nat, q: nat, c: nat, r: nat)
    requires c * k == 256
    ensures 256 * a + (q * c + r) == (k * a + q) * c + r
  {
    assert (k * a) * c == (c * k) * a;
  }

  lemma ModUnique(n: nat, a: nat, cap: nat, r: nat)
    requires IsCapacity(cap) && r < cap && n == a * cap + r
    ensures n % cap == r
  {}

  /** Within one capacity, distinct counts have distinct slots. */
  lemma SlotsDistinct(cap: nat, i: nat, j: nat)
    requires IsCapacity(cap) && i < j < i + cap
    ensures i % cap != j % cap
  {}

  lemma SlotPeriod(cap: nat, i: nat)
    requires IsCapacity(cap)
    ensures (i + cap) % cap == i % cap
  {
    DivMod(i, cap);
    assert (i / cap + 1) * cap == (i / cap) * cap + cap;
    ModUnique(i + cap, i / cap + 1, cap, i % cap);
  }

  /** The eight-bit full and empty tests are exact because at most 128 elements are in flight. */
  lemma TestsExact(cap: nat, w: nat, r: nat)
    requires IsCapacity(cap) && r <= w <= r + cap
    ensures IsFull(Wrap(w), Wrap(r), cap) <==> w == r + cap
    ensures Wrap(w) == Wrap(r) <==> w == r
  {}

  // ---- every action keeps the invariant --------------------------------------------------------

  lemma InitInv<T>(cap: nat)
    requires IsCapacity(cap)
    ensures Inv<T>(cap, Init(cap))
  {}

  /** Slot exclusivity: the writer fills only a free slot (or re-fills its own booked one), the reader touches only
      an initialised slot, and the two slots differ. */
  lemma SlotExclusivity<T>(cap: nat, l: LaneState<T>)
    requires Inv(cap, l)
    ensures l.wph.WWrite? ==> l.cells[l.wLocal.idx % cap] == Free
    ensures l.wph.WIdle? && l.wLocal.booked ==>
            l.hist.booked.Some? && l.cells[l.wLocal.idx % cap] == Full(l.hist.booked.value)
    ensures l.rph.RTake? || l.rph.RPeek? ==>
              |l.hist.pulled| < |l.hist.log| && l.cells[l.rLocal % cap] == Full(l.hist.log[|l.hist.pulled|])
    ensures (l.wph.WWrite? || (l.wph.WIdle? && l.wLocal.booked)) && (l.rph.RTake? || l.rph.RPeek?) ==>
              l.wLocal.idx % cap != l.rLocal % cap
    ensures |l.hist.pulled| <= |l.hist.log| <= |l.hist.pulled| + cap
  {
    var w, r := l.hist.wl, |l.hist.pulled|;
    SlotOfCount(cap, w);
    SlotOfCount(cap, r);
    assert l.wph.WWrite? ==> l.cells[w % cap] == Prescribed(l, w);
    assert l.cells[r % cap] == Prescribed(l, r);
    if l.wph.WIdle? && l.wLocal.booked {
      assert l.cells[w % cap] == Prescribed(l, w);
    }
    if r < w < r + cap {
      SlotsDistinct(cap, r, w);
    }
  }

  lemma SlotsSame<T>(cap: nat, l: LaneState<T>, l': LaneState<T>)
    requires 0 < cap == |l.cells| && Slots(cap, l)
    requires l'.cells == l.cells && |l'.hist.pulled| == |l.hist.pulled|
    requires forall i: nat {:trigger Prescribed(l', i)} :: |l.hist.pulled| <= i < |l.hist.pulled| + cap ==>
             Prescribed(l', i) == Prescribed(l, i)
    ensures Slots(cap, l')
  {}

  /** Writing slot w leaves every other slot of the window alone. */
  lemma WindowUpdate<T>(cap: nat, l: LaneState<T>, l': LaneState<T>, w: nat, s: Slot<T>)
    requires IsCapacity(cap) && |l.cells| == cap && Slots(cap, l)
    requires |l'.hist.pulled| == |l.hist.pulled| <= w < |l.hist.pulled| + cap
    requires l'.cells == l.cells[w % cap := s] && Prescribed(l', w) == s
    requires forall i: nat {:trigger Prescribed(l', i)} :: i != w && |l.hist.pulled| <= i < |l.hist.pulled| + cap ==>
             Prescribed(l', i) == Prescribed(l, i)
    ensures Slots(cap, l')
  {
    forall i: nat {:trigger Prescribed(l', i)} | |l.hist.pulled| <= i < |l.hist.pulled| + cap
      ensures l'.cells[i % cap] == Prescribed(l', i)
    {
      if i < w {
        SlotsDistinct(cap, i, w);
      } else if w < i {
        SlotsDistinct(cap, w, i);
      }
      assert i != w ==> Prescribed(l', i) == Prescribed(l, i);
    }
  }

  lemma WriterCheckKeeps<T>(cap: nat, l: LaneState<T>, a: LaneAct<T>)
    requires Inv(cap, l) && Enabled(cap, l, a) && (a.PushStart? || a.BookStart? || a.LoadR? || a.RefreshR?)
    ensures Inv(cap, Next(cap, l, a))
  {
    var l' := Next(cap, l, a);
    TestsExact(cap, l.hist.wl, l.hist.rc);
    TestsExact(cap, l.hist.wl, l.hist.rs);
    SlotsSame(cap, l, l');
    hide Slots, Prescribed, Wrap, Succ, IsFull;
  }

  lemma WriteSlotKeeps<T>(cap: nat, l: LaneState<T>)
    requires Inv(cap, l) && l.wph.WWrite?
    ensures Inv(cap, Next(cap, l, WriteSlot))
  {
    var l' := Next(cap, l, WriteSlot);
    SlotOfCount(cap, l.hist.wl);
    WindowUpdate(cap, l, l', l.hist.wl, Full(l.wph.t));
    WrapSucc(l.hist.wl);
    hide Slots, Prescribed, Wrap, Succ, IsFull;
  }

  lemma EditKeeps<T>(cap: nat, l: LaneState<T>, t: T)
    requires Inv(cap, l) && Enabled(cap, l, Edit(t))
    ensures Inv(cap, Next(cap, l, Edit(t)))
  {
    var l' := Next(cap, l, Edit(t));
    SlotOfCount(cap, l.hist.wl);
    WindowUpdate(cap, l, l', l.hist.wl, Full(t));
    hide Slots, Prescribed, Wrap, Succ, IsFull;
  }

  lemma WriterFlagKeeps<T>(cap: nat, l: LaneState<T>, a: LaneAct<T>)
    requires Inv(cap, l) && Enabled(cap, l, a) && (a.FetchOr? || a.CommitStart?)
    ensures Inv(cap, Next(cap, l, a))
  {
    var l' := Next(cap, l, a);
    SlotsSame(cap, l, l');
    WrapSucc(l.hist.wl);
    hide Slots, Prescribed, Wrap, Succ, IsFull;
  }

  lemma PublishWKeeps<T>(cap: nat, l: LaneState<T>)
    requires Inv(cap, l) && l.wph.WPublishing?
    ensures Inv(cap, Next(cap, l, PublishW))
  {
    var l' := Next(cap, l, PublishW);
    assert l'.hist.log[..|l.hist.pulled|] == l.hist.log[..|l.hist.pulled|];
    SlotsSame(cap, l, l');
    hide Slots, Prescribed, Wrap, Succ, IsFull;
  }

  lemma ReaderCheckKeeps<T>(cap: nat, l: LaneState<T>, a: LaneAct<T>)
    requires Inv(cap, l) && Enabled(cap, l, a) &&
             (a.PullStart? || a.LoadW? || a.RefreshW? || a.PeekEnd? || a.PublishR? || a.Stutter?)
    ensures Inv(cap, Next(cap, l, a))
  {
    var l' := Next(cap, l, a);
    TestsExact(cap, l.hist.wc, |l.hist.pulled|);
    TestsExact(cap, |l.hist.log|, |l.hist.pulled|);
    SlotsSame(cap, l, l');
    hide Slots, Prescribed, Wrap, Succ, IsFull;
  }

  lemma TakeKeeps<T>(cap: nat, l: LaneState<T>)
    requires Inv(cap, l) && l.rph.RTake?
    ensures Inv(cap, Next(cap, l, Take))
    ensures Next(cap, l, Take).hist.pulled == l.hist.pulled + [l.hist.log[|l.hist.pulled|]]
  {
    var l', r := Next(cap, l, Take), |l.hist.pulled|;
    SlotExclusivity(cap, l);
    SlotOfCount(cap, r);
    assert l'.hist.pulled == l.hist.log[..r + 1];
    TakeSlots(cap, l, l', r);
    WrapSucc(r);
    hide Slots, Prescribed, Wrap, Succ, IsFull;
  }

  /** Emptying slot r moves the window up by one; its new last slot is the emptied one. */
  lemma TakeSlots<T>(cap: nat, l: LaneState<T>, l': LaneState<T>, r: nat)
    requires IsCapacity(cap) && |l.cells| == cap && Slots(cap, l) && r == |l.hist.pulled| && |l'.hist.pulled| == r + 1
    requires l'.cells == l.cells[r % cap := Free] && l'.hist.log == l.hist.log && Private(l') == Private(l)
    requires |l.hist.log| <= r + cap && (Private(l).Some? ==> |l.hist.log| < r + cap)
    ensures Slots(cap, l')
  {
    forall i: nat {:trigger Prescribed(l', i)} | r + 1 <= i < r + 1 + cap
      ensures l'.cells[i % cap] == Prescribed(l', i)
    {
      assert Prescribed(l', i) == Prescribed(l, i);
      if i < r + cap {
        SlotsDistinct(cap, r, i);
      } else {
        SlotPeriod(cap, r);
      }
    }
  }

  lemma ReaderEditKeeps<T>(cap: nat, l: LaneState<T>, t: T)
    requires Inv(cap, l) && l.rph.RPeek?
    ensures Inv(cap, Next(cap, l, ReaderEdit(t)))
  {
    var l', r := Next(cap, l, ReaderEdit(t)), |l.hist.pulled|;
    SlotOfCount(cap, r);
    assert l'.hist.log[..r] == l.hist.log[..r];
    WindowUpdate(cap, l, l', r, Full(t));
    hide Slots, Prescribed, Wrap, Succ, IsFull;
  }

  lemma NextKeeps<T>(cap: nat, l: LaneState<T>, a: LaneAct<T>)
    requires Inv(cap, l) && Enabled(cap, l, a)
    ensures Inv(cap, Next(cap, l, a))
  {
    hide Inv, Next;
    match a
    case PushStart(_) => WriterCheckKeeps(cap, l, a);
    case BookStart(_) => WriterCheckKeeps(cap, l, a);
    case LoadR => WriterCheckKeeps(cap, l, a);
    case WriteSlot => WriteSlotKeeps(cap, l);
    case FetchOr => WriterFlagKeeps(cap, l, a);
    case Edit(t) => EditKeeps(cap, l, t);
    case CommitStart => WriterFlagKeeps(cap, l, a);
    case PublishW => PublishWKeeps(cap, l);
    case PullStart(_) => ReaderCheckKeeps(cap, l, a);
    case LoadW => ReaderCheckKeeps(cap, l, a);
    case Take => TakeKeeps(cap, l);
    case PublishR => ReaderCheckKeeps(cap, l, a);
    case ReaderEdit(t) => ReaderEditKeeps(cap, l, t);
    case PeekEnd => ReaderCheckKeeps(cap, l, a);
    case RefreshR => WriterCheckKeeps(cap, l, a);
    case RefreshW => ReaderCheckKeeps(cap, l, a);
    case Stutter => ReaderCheckKeeps(cap, l, a);
  }

  // ---- refinement: one lane is a FIFO queue with an optional booked cell ------------------------

  datatype Fifo<T> = Fifo(queue: seq<T>, booked: Option<T>)
  datatype FifoAct<T> = Enq(t: T) | BookCell(t: T) | EditCell(t: T) | CommitCell | Deq(t: T) | EditHead(t: T) | Nop

  ghost predicate FifoStep<T>(f: Fifo<T>, f': Fifo<T>, a: FifoAct<T>)
  {
    match a
    case Enq(t) => f.booked.None? && f' == Fifo(f.queue + [t], None)
    case BookCell(t) => f.booked.None? && f' == Fifo(f.queue, Some(t))
    case EditCell(t) => f.booked.Some? && f' == Fifo(f.queue, Some(t))
    case CommitCell => f.booked.Some? && f' == Fifo(f.queue + [f.booked.value], None)
    case Deq(t) => f.queue != [] && f.queue[0] == t && f' == Fifo(f.queue[1..], f.booked)
    case EditHead(t) => f.queue != [] && f' == Fifo(f.queue[0 := t], f.booked)
    case Nop => f' == f
  }

  function Abs<T>(l: LaneState<T>): Fifo<T>
    requires |l.hist.pulled| <= |l.hist.log|
  {
    Fifo(l.hist.log[|l.hist.pulled|..], l.hist.booked)
  }

  /** Linearisation points: fetch_or for `book`, the index store or CAS for `push` and `commit`, the slot read for
      `pull`. */
  function ActOf<T>(l: LaneState<T>, a: LaneAct<T>): FifoAct<T>
    requires |l.hist.pulled| <= |l.hist.log|
  {
    match a
    case FetchOr => if l.hist.pending.Some? then BookCell(l.hist.pending.value) else Nop
    case Edit(t) => EditCell(t)
    case PublishW => if l.hist.booked.Some? then CommitCell else if l.hist.pending.Some? then
        Enq(l.hist.pending.value) else Nop
    case Take => if |l.hist.pulled| < |l.hist.log| then Deq(l.hist.log[|l.hist.pulled|]) else Nop
    case ReaderEdit(t) => EditHead(t)
    case _ => Nop
  }

  lemma Refines<T>(cap: nat, l: LaneState<T>, a: LaneAct<T>)
    requires Inv(cap, l) && Enabled(cap, l, a)
    ensures var l' := Next(cap, l, a);
            |l'.hist.pulled| <= |l'.hist.log| && FifoStep(Abs(l), Abs(l'), ActOf(l, a))
  {
    NextKeeps(cap, l, a);
    if a.Take? {
      TakeKeeps(cap, l);
    } else if a.PublishW? {
      PublishRefines(cap, l);
    }
    hide Slots, Indices, Wrap, Succ, IsFull;
  }

  lemma PublishRefines<T>(cap: nat, l: LaneState<T>)
    requires Inv(cap, l) && l.wph.WPublishing?
    ensures var l', n := Next(cap, l, PublishW), |l.hist.pulled|;
            l.hist.pending.Some? && l'.hist.log[n..] == l.hist.log[n..] + [l.hist.pending.value]
  {
    hide Slots, Indices;
  }

  /** `push` and `book` give the element back exactly when every slot is in use; an element returned by a reader
      frees its slot only once the reader has published its index. */
  lemma FullIsExact<T>(cap: nat, l: LaneState<T>)
    requires Inv(cap, l) && l.wph.WCheck?
    ensures Next(cap, l, LoadR).wph.WIdle? <==> |l.hist.log| == l.hist.rs + cap
    ensures Next(cap, l, LoadR).wph.WWrite? <==> |l.hist.log| < l.hist.rs + cap
  {
    TestsExact(cap, l.hist.wl, l.hist.rs);
    hide Slots, Prescribed, Wrap, Succ;
  }

  /** `pull_priority` answers from the index snapshot it loads in the same call: it finds nothing exactly when the queue
      is empty at that instant, and then says Booked exactly when a booked element is visible at that instant. */
  lemma EmptyIsExact<T>(cap: nat, l: LaneState<T>)
    requires Inv(cap, l) && l.rph.RCheck?
    ensures Next(cap, l, LoadW).rph.RIdle? <==> Abs(l).queue == []
    ensures Next(cap, l, LoadW).rCached.booked <==> Abs(l).booked.Some?
  {
    TestsExact(cap, |l.hist.log|, |l.hist.pulled|);
    hide Slots, Prescribed, Wrap, Succ;
  }
}
