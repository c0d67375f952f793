/** src/pipeline/ringbuf: four lanes sharing one word for the write indices and one for the read indices.
    `Config` covers the three shapes: MPSC (writers merge, the reader stores), SPMC (the reverse), SPSC (both store). */
module RingBuf {
  import opened Base
  import opened PackedIdx
  import opened RingLane

  /** A 64-bit word, read lane by lane. */
  type Word = w: seq<Lane> | |w| == 4 witness [Lane(0, false), Lane(0, false), Lane(0, false), Lane(0, false)]

  const ZERO: Word := [Lane(0, false), Lane(0, false), Lane(0, false), Lane(0, false)]

  function Unpack(w: bv64): Word
  {
    [LaneOf(w, 0), LaneOf(w, 1), LaneOf(w, 2), LaneOf(w, 3)]
  }

  // The machine below works on unpacked words. Every operation of the source on the 64-bit word is the operation the
  // machine performs on one lane, so the four lanes never disturb each other.

  lemma UnpackIncrement(w: bv64, p: Priority)
    ensures Unpack(Increment(w, ShiftOf(p))) == Unpack(w)[p := Lane(Succ(Unpack(w)[p].idx), Unpack(w)[p].booked)]
  {
    hide LaneOf, Increment, ShiftOf;
    IncrementLane(w, p, 0); IncrementLane(w, p, 1); IncrementLane(w, p, 2); IncrementLane(w, p, 3);
  }

  lemma UnpackSet(w: bv64, p: Priority)
    ensures Unpack(Set(w, ShiftOf(p))) == Unpack(w)[p := Lane(Unpack(w)[p].idx, true)]
  {
    hide LaneOf, Set, ShiftOf;
    SetLane(w, p, 0); SetLane(w, p, 1); SetLane(w, p, 2); SetLane(w, p, 3);
  }

  lemma UnpackUnset(w: bv64, p: Priority)
    ensures Unpack(Unset(w, ShiftOf(p))) == Unpack(w)[p := Lane(Unpack(w)[p].idx, false)]
  {
    hide LaneOf, Unset, ShiftOf;
    UnsetLane(w, p, 0); UnsetLane(w, p, 1); UnsetLane(w, p, 2); UnsetLane(w, p, 3);
  }

  lemma UnpackMerge(current: bv64, w: bv64, p: Priority)
    ensures Unpack(Merge(current, w, ShiftOf(p))) == MergeWord(Unpack(current), Unpack(w), p)
  {
    hide LaneOf, Merge, ShiftOf;
    MergeLane(current, w, p, 0); MergeLane(current, w, p, 1); MergeLane(current, w, p, 2); MergeLane(current, w, p, 3);
  }

  datatype Config = Config(cap: nat, wMerge: bool, rMerge: bool)

  /** A handle works on one lane at a time. `cas` is the value its CAS loop last read. */
  datatype Writer<T> = Writer(local: Word, cached: Word, lane: Priority, phase: WPhase<T>, cas: Option<Word>)
  datatype Reader = Reader(local: Word, cached: Word, lane: Priority, phase: RPhase, cas: Option<Word>)

  datatype State<T> = State(
    idxW: Word, idxR: Word, cells: seq<seq<Slot<T>>>,
    writers: seq<Writer<T>>, readers: seq<Reader>, hists: seq<Hist<T>>)

  /** One atomic access or one slot access, of the handle that owns lane p. */
  datatype Step<T> =
    | Local(p: Priority, a: LaneAct<T>)   // everything but the publication of an index
    | StoreW(p: Priority) | CasLoadW(p: Priority) | CasW(p: Priority, spurious: bool)
    | StoreR(p: Priority) | CasLoadR(p: Priority) | CasR(p: Priority, spurious: bool)

  function WOf(c: Config, p: Priority): nat
  {
    if c.wMerge then p else 0
  }

  function ROf(c: Config, p: Priority): nat
  {
    if c.rMerge then p else 0
  }

  ghost predicate Shape<T>(c: Config, s: State<T>)
  {
    && IsCapacity(c.cap)
    && |s.cells| == 4 && |s.hists| == 4 && (forall p: Priority :: |s.cells[p]| == c.cap)
    && |s.writers| == (if c.wMerge then 4 else 1) && |s.readers| == if c.rMerge then 4 else 1
  }

  /** What lane p of the whole buffer looks like. */
  function View<T>(c: Config, s: State<T>, p: Priority): LaneState<T>
    requires Shape(c, s)
  {
    var w, r := s.writers[WOf(c, p)], s.readers[ROf(c, p)];
    LaneState(s.idxW[p], s.idxR[p].idx, s.cells[p],
              w.local[p], w.cached[p].idx, if w.lane == p then w.phase else WIdle,
              r.local[p].idx, r.cached[p], if r.lane == p then r.phase else RIdle,
              s.hists[p])
  }

  function InitState<T>(c: Config): State<T>
    requires IsCapacity(c.cap)
  {
    var w: Writer<T> := Writer(ZERO, ZERO, 0, WIdle, None);
    var r := Reader(ZERO, ZERO, 0, RIdle, None);
    State(ZERO, ZERO, seq(4, _ => seq(c.cap, _ => Free)),
          if c.wMerge then [w, w, w, w] else [w], if c.rMerge then [r, r, r, r] else [r],
          seq(4, _ => Hist([], [], None, None, 0, 0, 0, 0)))
  }

  predicate IsWriterAct<T>(a: LaneAct<T>)
  {
    a.PushStart? || a.BookStart? || a.LoadR? || a.WriteSlot? || a.FetchOr? || a.Edit? || a.CommitStart?
  }

  predicate IsReaderAct<T>(a: LaneAct<T>)
  {
    a.PullStart? || a.LoadW? || a.Take? || a.ReaderEdit? || a.PeekEnd?
  }

  /** A handle is idle, or busy on exactly this lane. */
  predicate WFreeFor<T>(w: Writer<T>, p: Priority)
  {
    w.lane == p || w.phase.WIdle?
  }

  predicate RFreeFor(r: Reader, p: Priority)
  {
    r.lane == p || r.phase.RIdle?
  }

  ghost predicate CanStep<T>(c: Config, s: State<T>, st: Step<T>)
    requires Shape(c, s)
  {
    var w, r := s.writers[WOf(c, st.p)], s.readers[ROf(c, st.p)];
    match st
    case Local(p, a) =>
      && Enabled(c.cap, View(c, s, p), a)
      && if IsWriterAct(a) then WFreeFor(w, p) else IsReaderAct(a) && RFreeFor(r, p)
    case StoreW(p) => !c.wMerge && w.lane == p && w.phase.WPublishing?
    case CasLoadW(p) => c.wMerge && w.lane == p && w.phase.WPublishing? && w.cas.None?
    case CasW(p, _) => c.wMerge && w.lane == p && w.phase.WPublishing? && w.cas.Some?
    case StoreR(p) => !c.rMerge && r.lane == p && r.phase.RPublishing?
    case CasLoadR(p) => c.rMerge && r.lane == p && r.phase.RPublishing? && r.cas.None?
    case CasR(p, _) => c.rMerge && r.lane == p && r.phase.RPublishing? && r.cas.Some?
  }

  /** The lane action a step amounts to. */
  function LaneActOf<T>(c: Config, s: State<T>, st: Step<T>): LaneAct<T>
    requires Shape(c, s)
  {
    match st
    case Local(_, a) => a
    case StoreW(_) => PublishW
    case CasLoadW(_) => Stutter
    case CasW(p, spurious) => if !spurious && s.writers[WOf(c, p)].cas == Some(s.idxW) then PublishW else Stutter
    case StoreR(_) => PublishR
    case CasLoadR(_) => Stutter
    case CasR(p, spurious) => if !spurious && s.readers[ROf(c, p)].cas == Some(s.idxR) then PublishR else Stutter
  }

  /** `AtomicIdx::update`: the value a successful CAS installs. */
  function MergeWord(current: Word, idx: Word, p: Priority): Word
  {
    current[p := idx[p]]
  }

  /** A handle that reloads its cached word refreshes every lane it owns. */
  function RefreshHists<T>(c: Config, s: State<T>, h: seq<Hist<T>>, writer: bool, p: Priority): seq<Hist<T>>
    requires |h| == 4 && |s.hists| == 4
  {
    seq(4, q requires 0 <= q < 4 =>
      if q == p then h[q]
      else if writer && !c.wMerge then h[q].(rc := h[q].rs)
      else if !writer && !c.rMerge then h[q].(wc := |h[q].log|)
      else h[q])
  }

  function Apply<T>(c: Config, s: State<T>, st: Step<T>): State<T>
    requires Shape(c, s) && CanStep(c, s, st)
  {
    var p := st.p;
    var wi, ri := WOf(c, p), ROf(c, p);
    var w, r := s.writers[wi], s.readers[ri];
    match st
    case Local(_, a) =>
      var l := Next(c.cap, View(c, s, p), a);
      var s1 := s.(cells := s.cells[p := l.cells], hists := s.hists[p := l.hist]);
      if IsWriterAct(a) then
        var w' := Writer(w.local[p := l.wLocal], if a.LoadR? then s.idxR else w.cached, p, l.wph, None);
        s1.(writers := s.writers[wi := w'],
            idxW := if a.FetchOr? then s.idxW[p := Lane(s.idxW[p].idx, true)] else s.idxW,
            hists := if a.LoadR? then RefreshHists(c, s, s1.hists, true, p) else s1.hists)
      else
        var r' := Reader(r.local[p := Lane(l.rLocal, r.local[p].booked)], if a.LoadW? then s.idxW else r.cached, p,
            l.rph, None);
        s1.(readers := s.readers[ri := r'],
            hists := if a.LoadW? then RefreshHists(c, s, s1.hists, false, p) else s1.hists)
    case StoreW(_) =>
      s.(idxW := w.local, writers := s.writers[wi := w.(phase := WIdle)],
         hists := s.hists[p := Next(c.cap, View(c, s, p), PublishW).hist])
    case CasLoadW(_) => s.(writers := s.writers[wi := w.(cas := Some(s.idxW))])
    case CasW(_, spurious) =>
      if !spurious && w.cas == Some(s.idxW) then
        s.(idxW := MergeWord(s.idxW, w.local, p), writers := s.writers[wi := w.(phase := WIdle, cas := None)],
           hists := s.hists[p := Next(c.cap, View(c, s, p), PublishW).hist])
      else s.(writers := s.writers[wi := w.(cas := Some(s.idxW))])
    case StoreR(_) =>
      s.(idxR := r.local, readers := s.readers[ri := r.(phase := RIdle)],
         hists := s.hists[p := Next(c.cap, View(c, s, p), PublishR).hist])
    case CasLoadR(_) => s.(readers := s.readers[ri := r.(cas := Some(s.idxR))])
    case CasR(_, spurious) =>
      if !spurious && r.cas == Some(s.idxR) then
        s.(idxR := MergeWord(s.idxR, r.local, p), readers := s.readers[ri := r.(phase := RIdle, cas := None)],
           hists := s.hists[p := Next(c.cap, View(c, s, p), PublishR).hist])
      else s.(readers := s.readers[ri := r.(cas := Some(s.idxR))])
  }

  ghost predicate GlobalInv<T>(c: Config, s: State<T>)
  {
    Shape(c, s) && forall p: Priority :: Inv(c.cap, View(c, s, p))
  }

  /** What a step on lane p does to another lane q: nothing, or a refresh of a stale copy. */
  function OtherAct<T>(c: Config, st: Step<T>): LaneAct<T>
  {
    if st.Local? && st.a.LoadR? && !c.wMerge then RefreshR
    else if st.Local? && st.a.LoadW? && !c.rMerge then RefreshW
    else Stutter
  }

  /** A handle busy on lane p has nothing pending on another lane it owns: there its local word is the shared word. */
  lemma IdleAgrees<T>(cap: nat, l: LaneState<T>)
    requires Inv(cap, l)
    ensures l.wph.WIdle? ==> l.wLocal == l.idxW
    ensures l.rph.RIdle? ==> l.rLocal == l.idxR
  {
    hide Slots, Wrap;
  }

  lemma WriterStepOwn<T>(c: Config, s: State<T>, p: Priority, a: LaneAct<T>)
    requires Shape(c, s) && CanStep(c, s, Local(p, a)) && IsWriterAct(a)
    ensures View(c, Apply(c, s, Local(p, a)), p) == Next(c.cap, View(c, s, p), a)
  {}

  lemma ReaderStepOwn<T>(c: Config, s: State<T>, p: Priority, a: LaneAct<T>)
    requires Shape(c, s) && CanStep(c, s, Local(p, a)) && IsReaderAct(a)
    ensures View(c, Apply(c, s, Local(p, a)), p) == Next(c.cap, View(c, s, p), a)
  {}

  lemma WriterStepOther<T>(c: Config, s: State<T>, p: Priority, a: LaneAct<T>, q: Priority)
    requires Shape(c, s) && CanStep(c, s, Local(p, a)) && p != q && IsWriterAct(a)
    ensures var o := OtherAct(c, Local(p, a));
            Enabled(c.cap, View(c, s, q), o) && View(c, Apply(c, s, Local(p, a)), q) == Next(c.cap, View(c, s, q), o)
  {}

  lemma ReaderStepOther<T>(c: Config, s: State<T>, p: Priority, a: LaneAct<T>, q: Priority)
    requires Shape(c, s) && CanStep(c, s, Local(p, a)) && p != q && IsReaderAct(a)
    ensures var o := OtherAct(c, Local(p, a));
            Enabled(c.cap, View(c, s, q), o) && View(c, Apply(c, s, Local(p, a)), q) == Next(c.cap, View(c, s, q), o)
  {
    hide IsCapacity;
    var s' := Apply(c, s, Local(p, a));
    assert s'.idxW == s.idxW && s'.idxR == s.idxR && s'.cells[q] == s.cells[q] && s'.writers == s.writers;
  }

  lemma PublishOwn<T>(c: Config, s: State<T>, st: Step<T>)
    requires Shape(c, s) && CanStep(c, s, st) && !st.Local?
    ensures Enabled(c.cap, View(c, s, st.p), LaneActOf(c, s, st))
    ensures View(c, Apply(c, s, st), st.p) == Next(c.cap, View(c, s, st.p), LaneActOf(c, s, st))
  {}

  lemma PublishOther<T>(c: Config, s: State<T>, st: Step<T>, q: Priority)
    requires Shape(c, s) && CanStep(c, s, st) && !st.Local? && q != st.p && Inv(c.cap, View(c, s, q))
    ensures View(c, Apply(c, s, st), q) == View(c, s, q)
  {
    IdleAgrees(c.cap, View(c, s, q));
    hide Inv;
  }

  lemma KeepsShape<T>(c: Config, s: State<T>, st: Step<T>)
    requires Shape(c, s) && CanStep(c, s, st)
    ensures Shape(c, Apply(c, s, st))
  {}

  /** Lane independence. Under every interleaving a step on lane p is one lane action on p, and leaves every other lane
      as it was (up to a stale copy being reloaded); the shared words carry four independent lanes. */
  lemma LaneIndependence<T>(c: Config, s: State<T>, st: Step<T>, q: Priority)
    requires GlobalInv(c, s) && CanStep(c, s, st)
    ensures Shape(c, Apply(c, s, st))
    ensures var a := if q == st.p then LaneActOf(c, s, st) else OtherAct(c, st);
            Enabled(c.cap, View(c, s, q), a) && View(c, Apply(c, s, st), q) == Next(c.cap, View(c, s, q), a)
  {
    KeepsShape(c, s, st);
    if st.Local? {
      if IsWriterAct(st.a) {
        if q == st.p { WriterStepOwn(c, s, q, st.a); } else { WriterStepOther(c, s, st.p, st.a, q); }
      } else {
        if q == st.p { ReaderStepOwn(c, s, q, st.a); } else { ReaderStepOther(c, s, st.p, st.a, q); }
      }
    } else if q == st.p {
      PublishOwn(c, s, st);
    } else {
      PublishOther(c, s, st, q);
    }
    hide Inv, Apply, View;
  }

  // ---- all runs --------------------------------------------------------------------------------

  lemma InitGlobal<T>(c: Config)
    requires IsCapacity(c.cap)
    ensures GlobalInv(c, InitState<T>(c))
  {
    InitInv<T>(c.cap);
    forall p: Priority ensures View(c, InitState<T>(c), p) == Init(c.cap) {
      assert View(c, InitState<T>(c), p).cells == Init<T>(c.cap).cells;
    }
  }

  lemma StepKeeps<T>(c: Config, s: State<T>, st: Step<T>)
    requires GlobalInv(c, s) && CanStep(c, s, st)
    ensures GlobalInv(c, Apply(c, s, st))
  {
    KeepsShape(c, s, st);
    hide Inv, Apply, View, CanStep, LaneActOf;
    forall q: Priority ensures Inv(c.cap, View(c, Apply(c, s, st), q)) {
      LaneIndependence(c, s, st, q);
      NextKeeps(c.cap, View(c, s, q), if q == st.p then LaneActOf(c, s, st) else OtherAct(c, st));
    }
  }

  /** Any interleaving of the handles, of any length. */
  ghost predicate IsRun<T>(c: Config, run: seq<State<T>>, steps: seq<Step<T>>)
    requires IsCapacity(c.cap)
  {
    && |run| == |steps| + 1 && run[0] == InitState(c)
    && forall i :: 0 <= i < |steps| ==>
       Shape(c, run[i]) && CanStep(c, run[i], steps[i]) && run[i + 1] == Apply(c, run[i], steps[i])
  }

  lemma {:induction false} RunKeepsInv<T>(c: Config, run: seq<State<T>>, steps: seq<Step<T>>, i: nat)
    requires IsCapacity(c.cap) && IsRun(c, run, steps) && i < |run|
    ensures GlobalInv(c, run[i])
  {
    if i == 0 {
      InitGlobal<T>(c);
    } else {
      RunKeepsInv(c, run, steps, i - 1);
      hide GlobalInv, Shape, CanStep, Apply;
      StepKeeps(c, run[i - 1], steps[i - 1]);
    }
  }

  /** The queue a lane stands for. */
  ghost function Queue<T>(c: Config, s: State<T>, p: Priority): Fifo<T>
    requires GlobalInv(c, s)
  {
    Abs(View(c, s, p))
  }

  ghost function QueueAct<T>(c: Config, s: State<T>, st: Step<T>, p: Priority): FifoAct<T>
    requires GlobalInv(c, s)
  {
    if p == st.p then ActOf(View(c, s, p), LaneActOf(c, s, st)) else Nop
  }

  /** Four writers and one reader, or one writer and four readers, or one of each: every step of every run is a step of
      four independent FIFO queues, and moves at most the queue of its own lane. */
  lemma RunRefines<T>(c: Config, run: seq<State<T>>, steps: seq<Step<T>>, i: nat, p: Priority)
    requires IsCapacity(c.cap) && IsRun(c, run, steps) && i < |steps|
    ensures GlobalInv(c, run[i]) && GlobalInv(c, run[i + 1])
    ensures FifoStep(Queue(c, run[i], p), Queue(c, run[i + 1], p), QueueAct(c, run[i], steps[i], p))
  {
    RunKeepsInv(c, run, steps, i);
    RunKeepsInv(c, run, steps, i + 1);
    LaneIndependence(c, run[i], steps[i], p);
    var l, a := View(c, run[i], p), if p == steps[i].p then LaneActOf(c, run[i], steps[i]) else OtherAct(c, steps[i]);
    assert Inv(c.cap, l) && Inv(c.cap, View(c, run[i + 1], p));
    Bounds(c.cap, l);
    Bounds(c.cap, View(c, run[i + 1], p));
    hide Inv, Apply, View, CanStep, LaneActOf, Next;
    Refines(c.cap, l, a);
  }

  lemma Bounds<T>(cap: nat, l: LaneState<T>)
    requires Inv(cap, l)
    ensures |l.hist.pulled| <= |l.hist.log| <= |l.hist.pulled| + cap
    ensures l.hist.pulled == l.hist.log[..|l.hist.pulled|]
  {
    hide Slots, Indices, Flags;
  }

  /** Nothing lost, duplicated or reordered: in every reachable state of every run the elements read out of a lane's
      slots are a prefix of the elements published on it, and the rest, at most `cap` elements, is its queue. */
  lemma PulledIsPrefix<T>(c: Config, run: seq<State<T>>, steps: seq<Step<T>>, i: nat, p: Priority)
    requires IsCapacity(c.cap) && IsRun(c, run, steps) && i < |run|
    ensures GlobalInv(c, run[i])
    ensures run[i].hists[p].pulled <= run[i].hists[p].log
    ensures run[i].hists[p].log == run[i].hists[p].pulled + Queue(c, run[i], p).queue
    ensures |Queue(c, run[i], p).queue| <= c.cap
  {
    RunKeepsInv(c, run, steps, i);
    assert Inv(c.cap, View(c, run[i], p));
    Bounds(c.cap, View(c, run[i], p));
    hide Inv;
  }

  /** Slots are exclusive in every reachable state, whatever the stale copies say. */
  lemma RunSlotExclusivity<T>(c: Config, run: seq<State<T>>, steps: seq<Step<T>>, i: nat, p: Priority)
    requires IsCapacity(c.cap) && IsRun(c, run, steps) && i < |run|
    ensures Shape(c, run[i])
    ensures var l := View(c, run[i], p);
            && (l.wph.WWrite? ==> l.cells[l.wLocal.idx % c.cap] == Free)
            && (l.rph.RTake? || l.rph.RPeek? ==> l.cells[l.rLocal % c.cap].Full?)
            && ((l.wph.WWrite? || (l.wph.WIdle? && l.wLocal.booked)) && (l.rph.RTake? || l.rph.RPeek?) ==>
                  l.wLocal.idx % c.cap != l.rLocal % c.cap)
  {
    RunKeepsInv(c, run, steps, i);
    assert Inv(c.cap, View(c, run[i], p));
    SlotExclusivity(c.cap, View(c, run[i], p));
    hide Inv, Prescribed;
  }
}
