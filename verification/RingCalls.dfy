/** src/pipeline/ringbuf/common.rs, call by call: what `push`, `book`, `commit`, `pull` and `peek_mut` do between the
    step that begins them and the one that ends them, whatever the other side does meanwhile. */
module RingCalls {
  import opened Base
  import opened PackedIdx
  import opened RingLane
  import opened RingBuf

  // ---- runs of one lane ------------------------------------------------------------------------

  ghost predicate LaneRun<T>(cap: nat, run: seq<LaneState<T>>, acts: seq<LaneAct<T>>)
  {
    && |run| == |acts| + 1
    && (forall i :: 0 <= i < |run| ==> Inv(cap, run[i]))
    && forall i :: 0 <= i < |acts| ==> Enabled(cap, run[i], acts[i]) && run[i + 1] == Next(cap, run[i], acts[i])
  }

  /** What step k does to the queue. */
  ghost function Did<T>(cap: nat, run: seq<LaneState<T>>, acts: seq<LaneAct<T>>, k: nat): FifoAct<T>
    requires LaneRun(cap, run, acts) && k < |acts|
  {
    Bounds(cap, run[k]);
    ActOf(run[k], acts[k])
  }

  /** It does exactly that: the queue before and after are related by it. */
  lemma DidIsStep<T>(cap: nat, run: seq<LaneState<T>>, acts: seq<LaneAct<T>>, k: nat)
    requires LaneRun(cap, run, acts) && k < |acts|
    ensures |run[k].hist.pulled| <= |run[k].hist.log| && |run[k + 1].hist.pulled| <= |run[k + 1].hist.log|
    ensures FifoStep(Abs(run[k]), Abs(run[k + 1]), Did(cap, run, acts, k))
  {
    hide Next, Enabled, FifoStep;
    Bounds(cap, run[k]);
    Bounds(cap, run[k + 1]);
    hide Inv;
    Refines(cap, run[k], acts[k]);
  }

  predicate ByReader<T>(f: FifoAct<T>)
  {
    f.Deq? || f.EditHead?
  }

  predicate ByWriter<T>(f: FifoAct<T>)
  {
    f.Enq? || f.BookCell? || f.EditCell? || f.CommitCell?
  }

  /** What the reader did to the queue in steps i to j, in order. */
  ghost function ReaderDid<T>(cap: nat, run: seq<LaneState<T>>, acts: seq<LaneAct<T>>, i: nat, j: nat): seq<FifoAct<T>>
    requires LaneRun(cap, run, acts) && i <= j <= |acts|
    decreases j
  {
    if i == j then []
    else
      var f := Did(cap, run, acts, j - 1);
      ReaderDid(cap, run, acts, i, j - 1) + if ByReader(f) then [f] else []
  }

  ghost function WriterDid<T>(cap: nat, run: seq<LaneState<T>>, acts: seq<LaneAct<T>>, i: nat, j: nat): seq<FifoAct<T>>
    requires LaneRun(cap, run, acts) && i <= j <= |acts|
    decreases j
  {
    if i == j then []
    else
      var f := Did(cap, run, acts, j - 1);
      WriterDid(cap, run, acts, i, j - 1) + if ByWriter(f) then [f] else []
  }

  /** The reader's call that begins with step i has returned in state j, and not before. */
  ghost predicate ReaderReturns<T>(run: seq<LaneState<T>>, i: nat, j: nat)
  {
    i < j < |run| && run[j].rph.RIdle? && forall k :: i < k < j ==> !run[k].rph.RIdle?
  }

  ghost predicate WriterReturns<T>(run: seq<LaneState<T>>, i: nat, j: nat)
  {
    i < j < |run| && run[j].wph.WIdle? && forall k :: i < k < j ==> !run[k].wph.WIdle?
  }

  // ---- one step of a call ----------------------------------------------------------------------

  /** Steps of the reader that are not its own leave its phase; only a removal dequeues. */
  lemma ReaderStep<T>(cap: nat, l: LaneState<T>, a: LaneAct<T>)
    requires Inv(cap, l) && Enabled(cap, l, a)
    ensures |l.hist.pulled| <= |l.hist.log|
    ensures var (l', f) := (Next(cap, l, a), ActOf(l, a));
            match l.rph
            case RIdle =>
              && !ByReader(f)
              && (a.PullStart? && a.peek ==> l'.rph == RCheck(true) || l'.rph.RPeek?)
              && (a.PullStart? && !a.peek ==> l'.rph == RCheck(false) || l'.rph.RTake?)
            case RCheck(peek) =>
              && !ByReader(f)
              && if a.LoadW? then
                   if |l.hist.pulled| == |l.hist.log| then l'.rph.RIdle? else if peek then l'.rph.RPeek?
                       else l'.rph.RTake?
                 else l'.rph == l.rph
            case RTake => if a.Take? then f.Deq? && l'.rph.RPublishing? else !ByReader(f) && l'.rph == l.rph
            case RPublishing => !ByReader(f) && l'.rph == if a.PublishR? then RIdle else l.rph
            case RPeek =>
              && (ByReader(f) ==> f.EditHead?)
              && (if a.PeekEnd? then l'.rph.RIdle? && !ByReader(f) else l'.rph == l.rph)
  {
    Bounds(cap, l);
    if l.rph.RCheck? {
      TestsExact(cap, |l.hist.log|, |l.hist.pulled|);
    }
    hide Slots, Wrap, Succ, IsFull, Prescribed;
  }

  lemma WriterStep<T>(cap: nat, l: LaneState<T>, a: LaneAct<T>)
    requires Inv(cap, l) && Enabled(cap, l, a)
    ensures |l.hist.pulled| <= |l.hist.log|
    ensures var (l', f) := (Next(cap, l, a), ActOf(l, a));
            match l.wph
            case WIdle =>
              && (a.PushStart? ==> !ByWriter(f) && (l'.wph == WCheck(a.t, false) || l'.wph == WWrite(a.t, false)))
              && (a.BookStart? ==> !ByWriter(f) && (l'.wph == WCheck(a.t, true) || l'.wph == WWrite(a.t, true)))
              && (a.CommitStart? ==> !ByWriter(f) && l'.wph.WPublishing? && l'.hist.booked.Some?)
            case WCheck(t, book) =>
              && !ByWriter(f)
              && if a.LoadR? then
                   if |l.hist.log| == l.hist.rs + cap then l'.wph.WIdle? else l'.wph == WWrite(t, book)
                 else l'.wph == l.wph
            case WWrite(t, book) =>
              && !ByWriter(f)
              && if a.WriteSlot? then
                   && l'.hist.pending == Some(t) && l'.hist.booked.None?
                   && if book then l'.wph.WBooking? else l'.wph.WPublishing?
                 else l'.wph == l.wph
            case WBooking =>
              if a.FetchOr? then l'.wph.WIdle? && l.hist.pending.Some? && f == BookCell(l.hist.pending.value)
              else !ByWriter(f) && l'.wph == l.wph && l'.hist.pending == l.hist.pending
            case WPublishing =>
              if a.PublishW? then
                && l'.wph.WIdle? && l.hist.pending.Some?
                && f == if l.hist.booked.Some? then CommitCell else Enq(l.hist.pending.value)
              else
                && !ByWriter(f) && l'.wph == l.wph
                && l'.hist.pending == l.hist.pending && l'.hist.booked == l.hist.booked
  {
    Bounds(cap, l);
    if l.wph.WCheck? {
      TestsExact(cap, l.hist.wl, l.hist.rs);
    }
    hide Slots, Wrap, Succ, IsFull, Prescribed;
  }

  // ---- the reader's calls ----------------------------------------------------------------------

  /** A call that began with `call` is under way, having done `did`. */
  ghost predicate Reading<T>(ph: RPhase, did: seq<FifoAct<T>>, call: LaneAct<T>)
  {
    call.PullStart? &&
    match ph
    case RIdle => false
    case RCheck(peek) => peek == call.peek && did == []
    case RTake => !call.peek && did == []
    case RPublishing => !call.peek && |did| == 1 && did[0].Deq?
    case RPeek => call.peek && forall n :: 0 <= n < |did| ==> did[n].EditHead?
  }

  /** What it has done when it returns with step `end`; `empty` tells that this step loaded the index of an empty
      queue. */
  ghost predicate ReadingDone<T>(did: seq<FifoAct<T>>, call: LaneAct<T>, end: LaneAct<T>, empty: bool)
  {
    call.PullStart? &&
    ((did == [] && empty)
     || if call.peek then end.PeekEnd? && forall n :: 0 <= n < |did| ==> did[n].EditHead?
        else end.PublishR? && |did| == 1 && did[0].Deq?)
  }

  ghost function Read<T>(did: seq<FifoAct<T>>, f: FifoAct<T>): seq<FifoAct<T>>
  {
    did + if ByReader(f) then [f] else []
  }

  ghost predicate LoadsEmpty<T>(l: LaneState<T>, a: LaneAct<T>)
  {
    a.LoadW? && |l.hist.pulled| == |l.hist.log|
  }

  lemma ReadingStarts<T>(cap: nat, l: LaneState<T>, a: LaneAct<T>)
    requires Inv(cap, l) && Enabled(cap, l, a) && a.PullStart?
    ensures |l.hist.pulled| <= |l.hist.log|
    ensures l.rph.RIdle? && Reading(Next(cap, l, a).rph, Read([], ActOf(l, a)), a)
  {
    ReaderStep(cap, l, a);
    assert l.rph.RIdle?;
    hide Inv, Next, ActOf;
  }

  lemma ReadingSteps<T>(cap: nat, l: LaneState<T>, a: LaneAct<T>, did: seq<FifoAct<T>>, call: LaneAct<T>)
    requires Inv(cap, l) && Enabled(cap, l, a) && Reading(l.rph, did, call)
    ensures |l.hist.pulled| <= |l.hist.log|
    ensures var (ph, did') := (Next(cap, l, a).rph, Read(did, ActOf(l, a)));
            if ph.RIdle? then ReadingDone(did', call, a, LoadsEmpty(l, a)) else Reading(ph, did', call)
  {
    hide Inv, Next, ActOf, Enabled;
    ReaderStep(cap, l, a);
  }

  lemma {:induction false} ReadProgress<T>(cap: nat, run: seq<LaneState<T>>, acts: seq<LaneAct<T>>, i: nat, k: nat)
    requires LaneRun(cap, run, acts) && i < k < |run| && acts[i].PullStart?
    requires forall x :: i < x <= k ==> !run[x].rph.RIdle?
    ensures Reading(run[k].rph, ReaderDid(cap, run, acts, i, k), acts[i])
    decreases k
  {
    hide Inv, Next, Enabled, ActOf, Reading, ReadingDone;
    if k == i + 1 {
      assert ReaderDid(cap, run, acts, i, i) == [];
      ReadingStarts(cap, run[i], acts[i]);
    } else {
      ReadProgress(cap, run, acts, i, k - 1);
      ReadingSteps(cap, run[k - 1], acts[k - 1], ReaderDid(cap, run, acts, i, k - 1), acts[i]);
    }
  }

  /** A pull returns once it has removed exactly one element, the head of the queue at that moment, and published
      that; or it has removed nothing, and the queue was empty when it looked. A peek removes nothing: it returns when
      its caller lets go of the head, having at most replaced it, or at once because the queue was empty when it
      looked. */
  lemma ReaderCall<T>(cap: nat, run: seq<LaneState<T>>, acts: seq<LaneAct<T>>, i: nat, j: nat)
    requires LaneRun(cap, run, acts) && i < |acts| && acts[i].PullStart? && ReaderReturns(run, i, j)
    ensures ReadingDone(ReaderDid(cap, run, acts, i, j), acts[i], acts[j - 1], LoadsEmpty(run[j - 1], acts[j - 1]))
  {
    hide Inv, Next, Enabled, ActOf, Reading, ReadingDone;
    if j == i + 1 {
      ReadingStarts(cap, run[i], acts[i]);
      NeverIdle(run[j].rph, Read([], ActOf(run[i], acts[i])), acts[i]);
    } else {
      ReadProgress(cap, run, acts, i, j - 1);
      ReadingSteps(cap, run[j - 1], acts[j - 1], ReaderDid(cap, run, acts, i, j - 1), acts[i]);
    }
  }

  lemma NeverIdle<T>(ph: RPhase, did: seq<FifoAct<T>>, call: LaneAct<T>)
    requires Reading(ph, did, call)
    ensures !ph.RIdle?
  {}

  /** While a peek lasts there is a head, and nothing but the peek itself changes it. */
  lemma PeekHolds<T>(cap: nat, l: LaneState<T>, a: LaneAct<T>)
    requires Inv(cap, l) && Enabled(cap, l, a) && l.rph.RPeek?
    ensures |l.hist.pulled| < |l.hist.log|
    ensures !a.ReaderEdit? ==>
              var h := Next(cap, l, a).hist;
              h.pulled == l.hist.pulled && |h.pulled| < |h.log| && h.log[|h.pulled|] == l.hist.log[|l.hist.pulled|]
  {
    hide Slots, Indices, Wrap, Succ, IsFull;
  }

  /** A reader that is not in a call has published everything it removed. */
  lemma AllRead<T>(cap: nat, l: LaneState<T>)
    requires Inv(cap, l) && l.rph.RIdle?
    ensures l.hist.rs == |l.hist.pulled|
  {
    hide Slots, Indices, Flags;
  }

  // ---- the writer's calls ----------------------------------------------------------------------

  predicate BeginsWrite<T>(a: LaneAct<T>)
  {
    a.PushStart? || a.BookStart? || a.CommitStart?
  }

  ghost predicate Writing<T>(l: LaneState<T>, did: seq<FifoAct<T>>, call: LaneAct<T>)
  {
    && BeginsWrite(call) && did == []
    && match l.wph
       case WIdle => false
       case WCheck(t, book) => call == if book then BookStart(t) else PushStart(t)
       case WWrite(t, book) => call == if book then BookStart(t) else PushStart(t)
       case WBooking => l.hist.pending.Some? && call == BookStart(l.hist.pending.value)
       case WPublishing =>
         && l.hist.pending.Some?
         && call == if l.hist.booked.Some? then CommitStart else PushStart(l.hist.pending.value)
  }

  /** `full` tells that the last step loaded a read index by which every slot counts as used. */
  ghost predicate WritingDone<T>(did: seq<FifoAct<T>>, call: LaneAct<T>, full: bool)
  {
    match call
    case PushStart(t) => did == [Enq(t)] || (did == [] && full)
    case BookStart(t) => did == [BookCell(t)] || (did == [] && full)
    case CommitStart => did == [CommitCell]
    case _ => false
  }

  ghost function Wrote<T>(did: seq<FifoAct<T>>, f: FifoAct<T>): seq<FifoAct<T>>
  {
    did + if ByWriter(f) then [f] else []
  }

  ghost predicate LoadsFull<T>(cap: nat, l: LaneState<T>, a: LaneAct<T>)
  {
    a.LoadR? && |l.hist.log| == l.hist.rs + cap
  }

  lemma WritingStarts<T>(cap: nat, l: LaneState<T>, a: LaneAct<T>)
    requires Inv(cap, l) && Enabled(cap, l, a) && BeginsWrite(a)
    ensures |l.hist.pulled| <= |l.hist.log|
    ensures l.wph.WIdle? && Writing(Next(cap, l, a), Wrote([], ActOf(l, a)), a)
  {
    WriterStep(cap, l, a);
    assert l.wph.WIdle?;
    hide Slots, Indices, Counters, IsFull;
  }

  lemma WritingSteps<T>(cap: nat, l: LaneState<T>, a: LaneAct<T>, did: seq<FifoAct<T>>, call: LaneAct<T>)
    requires Inv(cap, l) && Enabled(cap, l, a) && Writing(l, did, call)
    ensures |l.hist.pulled| <= |l.hist.log|
    ensures var (l', did') := (Next(cap, l, a), Wrote(did, ActOf(l, a)));
            if l'.wph.WIdle? then WritingDone(did', call, LoadsFull(cap, l, a)) else Writing(l', did', call)
  {
    hide Inv, Next, ActOf, Enabled;
    WriterStep(cap, l, a);
  }

  lemma {:induction false} WriteProgress<T>(cap: nat, run: seq<LaneState<T>>, acts: seq<LaneAct<T>>, i: nat, k: nat)
    requires LaneRun(cap, run, acts) && i < k < |run| && BeginsWrite(acts[i])
    requires forall x :: i < x <= k ==> !run[x].wph.WIdle?
    ensures Writing(run[k], WriterDid(cap, run, acts, i, k), acts[i])
    decreases k
  {
    hide Inv, Next, Enabled, ActOf, Writing, WritingDone;
    if k == i + 1 {
      assert WriterDid(cap, run, acts, i, i) == [];
      WritingStarts(cap, run[i], acts[i]);
    } else {
      WriteProgress(cap, run, acts, i, k - 1);
      WritingSteps(cap, run[k - 1], acts[k - 1], WriterDid(cap, run, acts, i, k - 1), acts[i]);
    }
  }

  /** A push returns once its element has been published, exactly once, a booking once its element is booked; or nothing
      was done, and every slot counted as used when it looked. A commit publishes the booked element, exactly once. */
  lemma WriterCall<T>(cap: nat, run: seq<LaneState<T>>, acts: seq<LaneAct<T>>, i: nat, j: nat)
    requires LaneRun(cap, run, acts) && i < |acts| && BeginsWrite(acts[i]) && WriterReturns(run, i, j)
    ensures WritingDone(WriterDid(cap, run, acts, i, j), acts[i], LoadsFull(cap, run[j - 1], acts[j - 1]))
  {
    hide Inv, Next, Enabled, ActOf, Writing, WritingDone;
    if j == i + 1 {
      WritingStarts(cap, run[i], acts[i]);
      NeverAtRest(run[j], Wrote([], ActOf(run[i], acts[i])), acts[i]);
    } else {
      WriteProgress(cap, run, acts, i, j - 1);
      WritingSteps(cap, run[j - 1], acts[j - 1], WriterDid(cap, run, acts, i, j - 1), acts[i]);
    }
  }

  lemma NeverAtRest<T>(l: LaneState<T>, did: seq<FifoAct<T>>, call: LaneAct<T>)
    requires Writing(l, did, call)
    ensures !l.wph.WIdle?
  {}

  // ---- the calls of every run of the buffer ----------------------------------------------------

  /** What happens on lane p of a run of the whole buffer. */
  ghost function LaneStates<T>(c: Config, run: seq<State<T>>, p: Priority): seq<LaneState<T>>
    requires forall i :: 0 <= i < |run| ==> Shape(c, run[i])
  {
    seq(|run|, i requires 0 <= i < |run| => View(c, run[i], p))
  }

  ghost function LaneActAt<T>(c: Config, s: State<T>, st: Step<T>, p: Priority): LaneAct<T>
    requires Shape(c, s)
  {
    if p == st.p then LaneActOf(c, s, st) else OtherAct(c, st)
  }

  ghost function LaneActs<T>(c: Config, run: seq<State<T>>, steps: seq<Step<T>>, p: Priority): seq<LaneAct<T>>
    requires |run| == |steps| + 1 && forall i :: 0 <= i < |run| ==> Shape(c, run[i])
  {
    seq(|steps|, i requires 0 <= i < |steps| => LaneActAt(c, run[i], steps[i], p))
  }

  lemma ShapesAll<T>(c: Config, run: seq<State<T>>, steps: seq<Step<T>>)
    requires IsCapacity(c.cap) && IsRun(c, run, steps)
    ensures forall i :: 0 <= i < |run| ==> Shape(c, run[i])
  {
    hide Shape, IsRun, Inv;
    forall i | 0 <= i < |run| ensures Shape(c, run[i]) {
      RunKeepsInv(c, run, steps, i);
    }
  }

  /** Every lane of every run is a run of that lane, so what holds of a call there holds of the calls of the buffer:
      MPSC, SPMC or SPSC, with a store or a CAS loop to publish an index. */
  lemma LanesRun<T>(c: Config, run: seq<State<T>>, steps: seq<Step<T>>, p: Priority)
    requires IsCapacity(c.cap) && IsRun(c, run, steps)
    ensures forall i :: 0 <= i < |run| ==> Shape(c, run[i])
    ensures LaneRun(c.cap, LaneStates(c, run, p), LaneActs(c, run, steps, p))
  {
    ShapesAll(c, run, steps);
    hide Inv, Next, Enabled, View, Apply, Shape, CanStep, LaneActOf;
    forall i | 0 <= i < |run| ensures Inv(c.cap, View(c, run[i], p)) {
      RunKeepsInv(c, run, steps, i);
    }
    forall i | 0 <= i < |steps|
      ensures Enabled(c.cap, View(c, run[i], p), LaneActAt(c, run[i], steps[i], p))
      ensures View(c, run[i + 1], p) == Next(c.cap, View(c, run[i], p), LaneActAt(c, run[i], steps[i], p))
    {
      RunKeepsInv(c, run, steps, i);
      LaneIndependence(c, run[i], steps[i], p);
    }
  }

  /** The contract of `push`, `book`, `commit`, `pull` and `peek_mut` on lane p, over any run of the buffer. */
  lemma RunCalls<T>(c: Config, run: seq<State<T>>, steps: seq<Step<T>>, p: Priority, i: nat, j: nat)
    requires IsCapacity(c.cap) && IsRun(c, run, steps) && i < |steps|
    ensures forall n :: 0 <= n < |run| ==> Shape(c, run[n])
    ensures LaneRun(c.cap, LaneStates(c, run, p), LaneActs(c, run, steps, p))
    ensures var (ls, acts) := (LaneStates(c, run, p), LaneActs(c, run, steps, p));
            && (acts[i].PullStart? && ReaderReturns(ls, i, j) ==>
                  ReadingDone(ReaderDid(c.cap, ls, acts, i, j), acts[i], acts[j - 1],
                      LoadsEmpty(ls[j - 1], acts[j - 1])))
            && (BeginsWrite(acts[i]) && WriterReturns(ls, i, j) ==>
                  WritingDone(WriterDid(c.cap, ls, acts, i, j), acts[i], LoadsFull(c.cap, ls[j - 1], acts[j - 1])))
  {
    LanesRun(c, run, steps, p);
    var (ls, acts) := (LaneStates(c, run, p), LaneActs(c, run, steps, p));
    assert |ls| == |acts| + 1 && |acts| == |steps|;
    hide *;
    if acts[i].PullStart? && ReaderReturns(ls, i, j) {
      ReaderCall(c.cap, ls, acts, i, j);
    }
    if BeginsWrite(acts[i]) && WriterReturns(ls, i, j) {
      WriterCall(c.cap, ls, acts, i, j);
    }
  }
}
