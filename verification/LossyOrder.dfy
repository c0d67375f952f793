/** Order over a lossy link: on every lane the messages delivered are a subsequence of the messages pushed. Nothing is
    delivered twice and nothing overtakes, whatever is lost, discarded or dropped for congestion. */
module LossyOrder {
  import opened Base
  import opened Codec
  import opened RxSpec
  import opened TxSpec
  import opened Loss
  import opened LossyLink
  import Reassembly

  // ---- subsequences ----------------------------------------------------------------------------

  predicate Sub<T(==)>(xs: seq<T>, ys: seq<T>)
    decreases |ys|
  {
    if xs == [] then true
    else if ys == [] then false
    else
      var (fx, fy) := (xs[..|xs| - 1], ys[..|ys| - 1]);
      (xs[|xs| - 1] == ys[|ys| - 1] && Sub(fx, fy)) || Sub(xs, fy)
  }

  lemma SubPush<T>(xs: seq<T>, ys: seq<T>, y: T)
    requires Sub(xs, ys)
    ensures Sub(xs, ys + [y]) && Sub(xs + [y], ys + [y])
  {
    assert (ys + [y])[..|ys + [y]| - 1] == ys && (xs + [y])[..|xs + [y]| - 1] == xs;
  }

  lemma {:induction false} SubAppend<T>(a: seq<T>, b: seq<T>, c: seq<T>, d: seq<T>)
    requires Sub(a, b) && Sub(c, d)
    ensures Sub(a + c, b + d)
    decreases |d|
  {
    if d == [] {
      assert a + c == a && b + d == b;
    } else {
      var (fd, y) := (d[..|d| - 1], d[|d| - 1]);
      assert b + d == b + fd + [y];
      if Sub(c, fd) {
        SubAppend(a, b, c, fd);
        SubPush(a + c, b + fd, y);
      } else {
        var fc := c[..|c| - 1];
        SubAppend(a, b, fc, fd);
        SubPush(a + fc, b + fd, y);
        assert a + c == a + fc + [y];
      }
    }
  }

  lemma {:induction false} SubRefl<T>(xs: seq<T>)
    ensures Sub(xs, xs)
  {
    if xs != [] {
      SubRefl(xs[..|xs| - 1]);
    }
  }

  lemma {:induction false} SubTrans<T>(a: seq<T>, b: seq<T>, c: seq<T>)
    requires Sub(a, b) && Sub(b, c)
    ensures Sub(a, c)
    decreases |c|
  {
    if a != [] && b != [] {
      var (fa, fb, fc) := (a[..|a| - 1], b[..|b| - 1], c[..|c| - 1]);
      if Sub(b, fc) {
        SubTrans(a, b, fc);
      } else if Sub(a, fb) {
        SubTrans(a, fb, fc);
      } else {
        SubTrans(fa, fb, fc);
      }
    }
  }

  lemma SubNone<T>(xs: seq<T>)
    ensures Sub([], xs)
  {}

  /** Messages may go missing in front, in the middle or at the end. */
  lemma SubDrop<T>(a: seq<T>, b: seq<T>, c: seq<T>)
    ensures Sub(a + c, a + (b + c))
  {
    SubRefl(a);
    SubRefl(c);
    SubNone(b);
    SubAppend([], b, c, c);
    assert [] + c == c;
    SubAppend(a, a, c, b + c);
  }

  // ---- what a stream carries -------------------------------------------------------------------

  /** The messages batch k brings about: those of a frame, or the one its Last completes. */
  function BatchMsgs(out: seq<Batch>, k: nat): seq<(Msg, QoS)>
    requires k < |out|
  {
    match out[k]
    case FrameBatch(qos, _, msgs) => Tag(msgs, qos)
    case FragBatch(qos, _, kind, _, _) => if kind.Last? then Tag(ParseAll(Upto(out, k)), qos) else []
  }

  function MsgsTo(out: seq<Batch>, n: nat): seq<(Msg, QoS)>
    requires n <= |out|
  {
    if n == 0 then [] else MsgsTo(out, n - 1) + BatchMsgs(out, n - 1)
  }

  lemma {:induction false} MsgsGrow(out: seq<Batch>, m: nat, n: nat)
    requires m <= n <= |out|
    ensures Sub(MsgsTo(out, m), MsgsTo(out, n))
    decreases n
  {
    hide BatchMsgs;
    if m == n {
      SubRefl(MsgsTo(out, n));
    } else {
      MsgsGrow(out, m, n - 1);
      SubNone(BatchMsgs(out, n - 1));
      SubAppend(MsgsTo(out, m), MsgsTo(out, n - 1), [], BatchMsgs(out, n - 1));
      assert MsgsTo(out, m) + [] == MsgsTo(out, m);
    }
  }

  lemma DeliveredMsgs(out: seq<Batch>, k: nat, a: Accept)
    requires k < |out| && Delivers(out, k, a) && a.Queue?
    ensures Tag(ParseAll(a.item.rest), a.item.qos) == BatchMsgs(out, k)
  {
    hide ParseAll, EncodeMsgs, Tag, Upto;
    if out[k].FrameBatch? {
      ParseEncoded(out[k].msgs);
    }
  }

  // ---- the receiver keeps the order ------------------------------------------------------------

  function PendingMsgs(s: Sys, p: Priority): seq<(Msg, QoS)>
  {
    if s.pending.Some? && s.pending.value.qos.priority == p then
      Tag(ParseAll(s.pending.value.rest), s.pending.value.qos)
    else []
  }

  /** Delivered, then queued, then being queued. */
  function Line(s: Sys, p: Priority): seq<(Msg, QoS)>
    requires RxSpec.Shape(s.rx)
  {
    OfLane(s.delivered, p) + (Waiting(s.rx.lanes[p]) + PendingMsgs(s, p))
  }

  ghost predicate Ordered(l: Link, s: Sys)
    requires |l.outs| == 4 && RxSpec.Shape(s.rx)
  {
    forall p: Priority ::
      NextOf(s.arrivals, p) <= |l.outs[p]| && Sub(Line(s, p), MsgsTo(l.outs[p], NextOf(s.arrivals, p)))
  }

  lemma DropHeadSub(rx: Rx, p: Priority, q: Priority)
    requires RxSpec.Shape(rx) && rx.lanes[p] != []
    ensures RxSpec.Shape(DropHead(rx, p)) && Sub(Waiting(DropHead(rx, p).lanes[q]), Waiting(rx.lanes[q]))
  {
    hide Tag, ParseAll;
    if q == p {
      var (a, w) := (Tag(ParseAll(rx.lanes[p][0].rest), rx.lanes[p][0].qos), Waiting(rx.lanes[p][1..]));
      SubDrop([], a, w);
      assert [] + w == w && [] + (a + w) == a + w;
    } else {
      SubRefl(Waiting(rx.lanes[q]));
    }
  }

  /** A call takes its message out of its lane, after some that it discards. */
  lemma {:induction false} PullSub(rx: Rx, q: Priority)
    requires RxSpec.Shape(rx) && Sorted(rx)
    ensures var (rx', r) := TryPull(rx);
            RxSpec.Shape(rx') && Sorted(rx') && Sub(Got(r, q) + Waiting(rx'.lanes[q]), Waiting(rx.lanes[q]))
    decreases Total(rx.lanes)
  {
    hide DecodeMsg, Waiting, Sub;
    match Highest(rx.lanes)
    case None =>
      SubRefl(Waiting(rx.lanes[q]));
      assert [] + Waiting(rx.lanes[q]) == Waiting(rx.lanes[q]);
    case Some(p) =>
      var head := rx.lanes[p][0];
      if (rx.congested[p] && head.qos.cc.Drop?) || DecodeMsg(head.rest).None? {
        PullSub(DropHead(rx, p), q);
        DropHeadSub(rx, p, q);
        var (rx', r) := TryPull(DropHead(rx, p));
        SubTrans(Got(r, q) + Waiting(rx'.lanes[q]), Waiting(DropHead(rx, p).lanes[q]), Waiting(rx.lanes[q]));
      } else {
        var (m, n) := DecodeMsg(head.rest).value;
        DecodedHead(rx.lanes[p], m, n);
        SubRefl(Waiting(rx.lanes[q]));
        assert q != p ==> [] + Waiting(rx.lanes[q]) == Waiting(rx.lanes[q]);
      }
  }

  ghost predicate OrderInv(l: Link, s: Sys)
  {
    |l.outs| == 4 && RxSpec.Shape(s.rx) && Inv(l, s) && Sorted(s.rx) && Ordered(l, s)
  }

  /** What a lane's line looks like after a step that does not concern it. */
  lemma SameLine(s: Sys, s': Sys, p: Priority)
    requires RxSpec.Shape(s.rx) && RxSpec.Shape(s'.rx) && s'.rx.lanes[p] == s.rx.lanes[p] && s'.delivered == s.delivered
    requires PendingMsgs(s', p) == PendingMsgs(s, p)
    ensures Line(s', p) == Line(s, p)
  {}

  lemma ArriveOrdered(l: Link, s: Sys, p: Priority, k: nat)
    requires OrderInv(l, s) && Enabled(l, s, Arrive(p, k))
    ensures var s' := Apply(l, s, Arrive(p, k)); RxSpec.Shape(s'.rx) && Sorted(s'.rx) && Ordered(l, s')
  {
    hide Inv, Sub, MsgsTo, BatchMsgs, Waiting, ParseAll, Tag, Wire, Receive, NextOf, OfLane;
    var s' := Apply(l, s, Arrive(p, k));
    var a := Receive(s.rx, Wire(l.outs[p][k]), l.cap).1;
    ArriveFacts(l, s, p, k);
    forall q: Priority
      ensures NextOf(s'.arrivals, q) <= |l.outs[q]| && Sub(Line(s', q), MsgsTo(l.outs[q], NextOf(s'.arrivals, q)))
    {
      if q == p {
        var (out, n) := (l.outs[p], NextOf(s.arrivals, p));
        MsgsGrow(out, n, k);
        SubTrans(Line(s, p), MsgsTo(out, n), MsgsTo(out, k));
        LineArrives(out, Line(s, p), k, PendingMsgs(s', p));
        assert Line(s', p) == Line(s, p) + PendingMsgs(s', p) by {
          assert PendingMsgs(s, p) == [];
          assert Waiting(s.rx.lanes[p]) + [] == Waiting(s.rx.lanes[p]);
        }
      } else {
        assert PendingMsgs(s', q) == [] == PendingMsgs(s, q);
        SameLine(s, s', q);
      }
    }
  }

  lemma LineArrives(out: seq<Batch>, line: seq<(Msg, QoS)>, k: nat, got: seq<(Msg, QoS)>)
    requires k < |out| && Sub(line, MsgsTo(out, k)) && (got == [] || got == BatchMsgs(out, k))
    ensures Sub(line + got, MsgsTo(out, k + 1))
  {
    hide Sub, BatchMsgs;
    SubRefl(got);
    SubNone(BatchMsgs(out, k));
    SubAppend(line, MsgsTo(out, k), got, BatchMsgs(out, k));
  }

  lemma ArriveFacts(l: Link, s: Sys, p: Priority, k: nat)
    requires Inv(l, s) && Enabled(l, s, Arrive(p, k))
    ensures var s' := Apply(l, s, Arrive(p, k));
            && RxSpec.Shape(s'.rx) && s'.rx.lanes == s.rx.lanes && s'.delivered == s.delivered
            && NextOf(s'.arrivals, p) == k + 1 <= |l.outs[p]|
            && (forall q: Priority :: q != p ==> NextOf(s'.arrivals, q) == NextOf(s.arrivals, q))
            && (s'.pending.Some? ==> s'.pending.value.qos.priority == p)
            && (PendingMsgs(s', p) == [] || PendingMsgs(s', p) == BatchMsgs(l.outs[p], k))
  {
    hide Wire, Receive, ParseAll, Tag, EncodeMsgs, BatchMsgs, Delivers, SoundStream, SentLane, ItemSent;
    var arrivals := s.arrivals + [Arrival(p, k)];
    assert arrivals[..|arrivals| - 1] == s.arrivals;
    ArrivalSafe(l.outs, l.logs, s.rx, arrivals, l.cap);
    ReceiveLanes(s.rx, Wire(l.outs[p][k]), l.cap);
    NextOfLast(arrivals);
    var a := Receive(s.rx, Wire(l.outs[p][k]), l.cap).1;
    if a.Queue? {
      assert SoundStream(l.outs[p], l.logs[p], p);
      StreamAt(l.outs[p], l.logs[p], p, k);
      DeliveredMsgs(l.outs[p], k, a);
      DeliversLane(l.outs[p], k, a);
    }
  }

  lemma DeliversLane(out: seq<Batch>, k: nat, a: Accept)
    requires k < |out| && Delivers(out, k, a) && a.Queue?
    ensures a.item.qos == out[k].qos
  {
    hide EncodeMsgs, Upto;
  }

  lemma EnqueueOrdered(l: Link, s: Sys)
    requires OrderInv(l, s) && Enabled(l, s, Action.Enqueue)
    ensures var s' := Apply(l, s, Action.Enqueue); RxSpec.Shape(s'.rx) && Sorted(s'.rx) && Ordered(l, s')
  {
    hide Inv, Sub, MsgsTo, Waiting, ParseAll, Tag, NextOf, OfLane;
    var s' := Apply(l, s, Action.Enqueue);
    var item := s.pending.value;
    var p := item.qos.priority;
    WaitingAppend(s.rx.lanes[p], item);
    var w := Waiting(s.rx.lanes[p]);
    assert forall q: Priority :: q != p ==> PendingMsgs(s', q) == PendingMsgs(s, q);
    forall q: Priority ensures Line(s', q) == Line(s, q) {
      if Offer(s.rx, item, l.size).1 && q == p {
        assert PendingMsgs(s', p) == [] && PendingMsgs(s, p) == Tag(ParseAll(item.rest), item.qos);
      } else {
        SameLine(s, s', q);
      }
    }
    hide Line;
  }

  lemma DiscardOrdered(l: Link, s: Sys)
    requires OrderInv(l, s) && Enabled(l, s, Discard)
    ensures Ordered(l, Apply(l, s, Discard))
  {
    hide Inv, Sub, MsgsTo, Waiting, NextOf, OfLane;
    var s' := Apply(l, s, Discard);
    forall p: Priority
      ensures NextOf(s'.arrivals, p) <= |l.outs[p]| && Sub(Line(s', p), MsgsTo(l.outs[p], NextOf(s'.arrivals, p)))
    {
      var (a, w, b) := (OfLane(s.delivered, p), Waiting(s.rx.lanes[p]), PendingMsgs(s, p));
      assert PendingMsgs(s', p) == [];
      hide PendingMsgs;
      LineCut(a, w, b);
      SubTrans(Line(s', p), Line(s, p), MsgsTo(l.outs[p], NextOf(s.arrivals, p)));
    }
  }

  lemma LineCut(a: seq<(Msg, QoS)>, w: seq<(Msg, QoS)>, b: seq<(Msg, QoS)>)
    ensures Sub(a + (w + []), a + (w + b))
  {
    hide Sub;
    SubDrop(a + w, b, []);
    assert a + w + [] == a + (w + []) && a + w + (b + []) == a + (w + b);
  }

  lemma CongestOrdered(l: Link, s: Sys, p: Priority)
    requires OrderInv(l, s)
    ensures var s' := Apply(l, s, Congest(p)); RxSpec.Shape(s'.rx) && Sorted(s'.rx) && Ordered(l, s')
  {
    hide Inv, Sub, MsgsTo, Waiting, NextOf, OfLane, ParseAll, Tag;
    var s' := Apply(l, s, Congest(p));
    forall q: Priority ensures Line(s', q) == Line(s, q) {
      SameLine(s, s', q);
    }
    hide Line;
  }

  lemma PullOrdered(l: Link, s: Sys)
    requires OrderInv(l, s)
    ensures var s' := Apply(l, s, Pull); RxSpec.Shape(s'.rx) && Sorted(s'.rx) && Ordered(l, s')
  {
    hide Inv, Sub, MsgsTo, Waiting, NextOf, OfLane, TryPull, Sorted;
    var s' := Apply(l, s, Pull);
    var r := TryPull(s.rx).1;
    PullSub(s.rx, 0);
    forall p: Priority
      ensures NextOf(s'.arrivals, p) <= |l.outs[p]| && Sub(Line(s', p), MsgsTo(l.outs[p], NextOf(s'.arrivals, p)))
    {
      PullSub(s.rx, p);
      var (a, w, w', b) := (OfLane(s.delivered, p), Waiting(s.rx.lanes[p]), Waiting(s'.rx.lanes[p]), PendingMsgs(s, p));
      DeliveredLane(s.delivered, r, p);
      assert PendingMsgs(s', p) == b by { hide *; assert s'.pending == s.pending; SamePending(s, s', p); }
      hide PendingMsgs;
      LinePulled(a, Got(r, p), w', w, b);
      SubTrans(Line(s', p), Line(s, p), MsgsTo(l.outs[p], NextOf(s.arrivals, p)));
    }
  }

  lemma SamePending(s: Sys, s': Sys, p: Priority)
    requires s'.pending == s.pending
    ensures PendingMsgs(s', p) == PendingMsgs(s, p)
  {}

  lemma DeliveredLane(ms: seq<(Msg, QoS)>, r: Option<(Msg, QoS)>, p: Priority)
    ensures OfLane(if r.Some? then ms + [r.value] else ms, p) == OfLane(ms, p) + Got(r, p)
  {
    if r.Some? {
      OfLaneAppend(ms, [r.value], p);
      assert OfLane([r.value], p) == Got(r, p) + OfLane([], p);
    }
  }

  lemma LinePulled(a: seq<(Msg, QoS)>, g: seq<(Msg, QoS)>, w': seq<(Msg, QoS)>, w: seq<(Msg, QoS)>, b: seq<(Msg, QoS)>)
    requires Sub(g + w', w)
    ensures Sub((a + g) + (w' + b), a + (w + b))
  {
    hide Sub;
    SubRefl(a);
    SubRefl(b);
    SubAppend(g + w', w, b, b);
    SubAppend(a, a, g + w' + b, w + b);
    assert (a + g) + (w' + b) == a + (g + w' + b);
  }

  lemma StepOrdered(l: Link, s: Sys, a: Action)
    requires OrderInv(l, s) && Enabled(l, s, a)
    ensures OrderInv(l, Apply(l, s, a))
  {
    hide Inv, Apply, Enabled, Ordered, Sorted;
    LossyLink.StepKeeps(l, s, a);
    match a
    case Arrive(p, k) => ArriveOrdered(l, s, p, k);
    case Enqueue => EnqueueOrdered(l, s);
    case Discard =>
      DiscardOrdered(l, s);
      SameSorted(l, s);
    case Congest(p) => CongestOrdered(l, s, p);
    case Pull => PullOrdered(l, s);
  }

  lemma SameSorted(l: Link, s: Sys)
    requires Inv(l, s) && Sorted(s.rx) && Enabled(l, s, Discard)
    ensures RxSpec.Shape(Apply(l, s, Discard).rx) && Sorted(Apply(l, s, Discard).rx)
  {}

  lemma {:induction false} RunOrdered(l: Link, states: seq<Sys>, acts: seq<Action>, n: nat)
    requires SoundStreams(l.outs, l.logs) && IsRun(l, states, acts) && n <= |acts|
    ensures OrderInv(l, states[n])
  {
    hide OrderInv, Apply, Enabled, SoundStream;
    if n == 0 {
      assert OrderInv(l, INIT_SYS) by { StartOrdered(l); }
    } else {
      RunOrdered(l, states, acts, n - 1);
      StepOrdered(l, states[n - 1], acts[n - 1]);
    }
  }

  lemma StartOrdered(l: Link)
    requires SoundStreams(l.outs, l.logs)
    ensures OrderInv(l, INIT_SYS)
  {
    LossyLink.InitInv(l);
    hide Inv, SoundStream;
    assert forall p: Priority :: Line(INIT_SYS, p) == [] && NextOf([], p) == 0;
    hide Line;
  }

  // ---- the sender keeps the order --------------------------------------------------------------

  /** Messages by class, as `push` was given them. */
  function Classes(ms: seq<(Msg, QoS)>): seq<(Msg, CongestionControl)>
  {
    if ms == [] then [] else Classes(ms[..|ms| - 1]) + [(ms[|ms| - 1].0, ms[|ms| - 1].1.cc)]
  }

  lemma ClassesPush(ms: seq<(Msg, QoS)>, x: (Msg, QoS))
    ensures Classes(ms + [x]) == Classes(ms) + [(x.0, x.1.cc)]
  {
    assert (ms + [x])[..|ms + [x]| - 1] == ms;
  }

  /** Everything given to `push`, in order. */
  function Pushes(ops: seq<Op>): seq<(Msg, CongestionControl)>
  {
    if ops == [] then []
    else
      Pushes(ops[..|ops| - 1]) + match ops[|ops| - 1] case OpPush(m, cc, _, _) => [(m, cc)] case OpFlush => []
  }

  /** The messages of the committed batches and of the booked frame. */
  function Made(st: Stage): seq<(Msg, QoS)>
  {
    MsgsTo(st.out, |st.out|) +
    if st.open.Some? && st.open.value.FrameBatch? then Tag(st.open.value.msgs, st.open.value.qos) else []
  }

  lemma {:induction false} MsgsPrefix(out: seq<Batch>, more: seq<Batch>, n: nat)
    requires n <= |out|
    ensures MsgsTo(out + more, n) == MsgsTo(out, n)
  {
    hide BatchMsgs;
    if n > 0 {
      MsgsPrefix(out, more, n - 1);
      BatchPrefix(out, more, n - 1);
    }
  }

  lemma BatchPrefix(out: seq<Batch>, more: seq<Batch>, k: nat)
    requires k < |out|
    ensures BatchMsgs(out + more, k) == BatchMsgs(out, k)
  {
    hide Tag, ParseAll, Upto;
    UptoPrefix(out, more, k);
  }

  lemma MsgsPush(out: seq<Batch>, b: Batch)
    ensures MsgsTo(out + [b], |out| + 1) == MsgsTo(out, |out|) + BatchMsgs(out + [b], |out|)
  {
    hide BatchMsgs;
    MsgsPrefix(out, [b], |out|);
  }

  lemma CommitMade(st: Stage)
    requires st.open.Some? ==> st.open.value.FrameBatch?
    ensures Made(Commit(st)) == Made(st)
  {
    if st.open.Some? {
      MsgsPush(st.out, st.open.value);
      hide Tag, MsgsTo;
      assert (st.out + [st.open.value])[|st.out|] == st.open.value;
    }
  }

  /** The first k fragments of a message bring it about exactly if its Last is among them. */
  lemma {:induction false} FragmentsMade(out: seq<Batch>, l: seq<Batch>, qos: QoS, s: SeqNum, id: SeqNum, k: nat,
      m: Msg)
    requires AreFragments(l, qos, s, id) && |l| >= 2 && Payloads(l) == EncodeMsg(m) && k <= |l|
    ensures MsgsTo(out + l[..k], |out| + k) == MsgsTo(out, |out|) + if k == |l| then [(m, qos)] else []
  {
    hide AreFragments, Payloads, EncodeMsg, Tag, ParseAll, MsgsTo, Upto, NextSeq;
    if k == 0 {
      assert out + l[..0] == out;
      assert MsgsTo(out, |out|) + [] == MsgsTo(out, |out|);
    } else {
      FragmentsMade(out, l, qos, s, id, k - 1, m);
      CutStep(out, l, k - 1);
      MsgsPush(out + l[..k - 1], l[k - 1]);
      FragmentLinks(l, qos, s, id, k - 1);
      Reassembly.LastKind(l, qos, s, id, k - 1);
      var all := out + l[..k];
      assert all[|out| + k - 1] == l[k - 1];
      if k == |l| {
        UptoFragments(out, l, qos, s, id, k - 1);
        assert l[..k] == l;
        Reassembly.OneMessage(m, qos);
      }
    }
  }

  lemma PushFreshMade(bs: BatchSize, st: Stage, m: Msg, qos: QoS, env: Env)
    requires st.open.None?
    ensures var st' := PushFresh(bs, st, m, qos, env).0; Made(st') == Made(st) || Made(st') == Made(st) + [(m, qos)]
  {
    hide NextSeq, FragmentsOf, Fits, Made, Commit, AreFragments, Payloads, EncodeMsg, FragAt, AfterFragments, Wire;
    var (s, id) := (NextSeq(SeqOf(st, qos.cc)), NextSeq(st.fragId));
    if env.grants > 0 && Fits(bs, FrameBatch(qos, s, [m])) {
      BookedMade(st, s, m, qos);
    } else if env.grants > 0 {
      FragmentShape(bs, qos, s, id, m);
      FragmentsAre(bs, qos, s, id, m);
      var l := FragmentsOf(bs, qos, s, id, m);
      CutMade(st, qos.cc, l, qos, s, id, Committed(|l|, env.grants - 1, env.notifies), m);
    }
  }

  lemma CutMade(st: Stage, cc: CongestionControl, l: seq<Batch>, qos: QoS, s: SeqNum, id: SeqNum, k: nat, m: Msg)
    requires st.open.None? && 1 <= k <= |l| && |l| >= 2 && AreFragments(l, qos, s, id) && Payloads(l) == EncodeMsg(m)
    ensures Made(AfterFragments(st, cc, id, l, k)) == Made(st) + if k == |l| then [(m, qos)] else []
  {
    hide AreFragments, Payloads, EncodeMsg, MsgsTo;
    FragmentsMade(st.out, l, qos, s, id, k, m);
  }

  lemma BookedMade(st: Stage, s: SeqNum, m: Msg, qos: QoS)
    requires st.open.None?
    ensures var st1 := SetSeq(st, qos.cc, s).(open := Some(FrameBatch(qos, s, [m])));
            Made(st1) == Made(st) + [(m, qos)] && Made(Commit(st1)) == Made(st) + [(m, qos)]
  {
    hide MsgsTo, Commit;
    CommitMade(SetSeq(st, qos.cc, s).(open := Some(FrameBatch(qos, s, [m]))));
    assert Tag([m], qos) == [(m, qos)] + Tag([], qos);
  }

  lemma AppendMade(st: Stage, m: Msg)
    requires st.open.Some? && st.open.value.FrameBatch?
    ensures Made(st.(open := Some(Append(st.open.value, m)))) == Made(st) + [(m, st.open.value.qos)]
  {
    hide MsgsTo, Tag;
    TagPush(st.open.value.msgs, m, st.open.value.qos);
  }

  /** A push, failed or not, adds its message at the end or nothing. */
  lemma PushMade(bs: BatchSize, p: Priority, st: Stage, m: Msg, qos: QoS, env: Env)
    requires StageInv(bs, p, st)
    ensures var st' := Push(bs, st, m, qos, env).0;
            || Made(st') == Made(st) || Made(st') == Made(st) + [(m, qos)]
            || (st.open.Some? && st.open.value.qos.cc == qos.cc && Made(st') == Made(st) + [(m, st.open.value.qos)])
  {
    hide Fits, PushFresh, Made;
    CommitMade(st);
    if st.open.None? {
      PushFreshMade(bs, st, m, qos, env);
    } else if st.open.value.qos.cc == qos.cc && Fits(bs, Append(st.open.value, m)) {
      AppendMade(st, m);
      CommitMade(st.(open := Some(Append(st.open.value, m))));
    } else if env.notifies > 0 {
      PushFreshMade(bs, Commit(st), m, qos, env.(notifies := env.notifies - 1));
    }
  }

  lemma {:induction false} RunMade(bs: BatchSize, p: Priority, ops: seq<Op>)
    ensures Sub(Classes(Made(RunOps(bs, p, ops))), Pushes(ops))
  {
    hide Push, Made, StageInv, Classes, Sub, Commit;
    if ops == [] {
      assert Sub(Classes(Made(INIT_STAGE)), []) by { NothingMade(); }
    } else {
      var front := ops[..|ops| - 1];
      RunMade(bs, p, front);
      RunPriority(bs, p, front);
      var st := RunOps(bs, p, front);
      match ops[|ops| - 1]
      case OpPush(m, cc, express, env) =>
        var qos := QoS(p, cc, express);
        PushMade(bs, p, st, m, qos, env);
        SubPush(Classes(Made(st)), Pushes(front), (m, cc));
        ClassesPush(Made(st), (m, qos));
        if st.open.Some? {
          ClassesPush(Made(st), (m, st.open.value.qos));
        }
      case OpFlush =>
        OpenIsFrame(bs, p, st);
        CommitMade(st);
        assert Pushes(ops) == Pushes(front);
    }
  }

  lemma NothingMade()
    ensures Made(INIT_STAGE) == [] && Sub(Classes(Made(INIT_STAGE)), [])
  {}

  lemma OpenIsFrame(bs: BatchSize, p: Priority, st: Stage)
    requires StageInv(bs, p, st)
    ensures st.open.Some? ==> st.open.value.FrameBatch?
  {}

  // ---- from push to delivery -------------------------------------------------------------------

  lemma {:induction false} ClassesSub(a: seq<(Msg, QoS)>, b: seq<(Msg, QoS)>)
    requires Sub(a, b)
    ensures Sub(Classes(a), Classes(b))
    decreases |b|
  {
    if a != [] {
      var (fa, fb, x) := (a[..|a| - 1], b[..|b| - 1], b[|b| - 1]);
      if Sub(a, fb) {
        ClassesSub(a, fb);
        SubPush(Classes(a), Classes(fb), (x.0, x.1.cc));
      } else {
        ClassesSub(fa, fb);
        SubPush(Classes(fa), Classes(fb), (x.0, x.1.cc));
      }
    }
  }

  /** Order and uniqueness under loss: run four senders in any way that commits fewer than 2^28 batches of each class
      and priority, lose any of their batches, let the receiver queue, discard, drop and deliver in any way: what lane
      p has delivered is a subsequence of what was pushed on it, each message with its congestion control. */
  lemma DeliveredInOrder(bs: BatchSize, ops: seq<seq<Op>>, l: Link, states: seq<Sys>, acts: seq<Action>, n: nat,
      p: Priority)
    requires Senders(bs, ops, l.outs, l.logs) && (forall q: Priority :: Few(l.outs[q]))
    requires IsRun(l, states, acts) && n <= |acts|
    ensures Sub(Classes(OfLane(states[n].delivered, p)), Pushes(ops[p]))
  {
    forall q: Priority ensures SoundStream(l.outs[q], l.logs[q], q) {
      hide RunOps, LogOf, SoundStream, Few;
      assert Few(l.outs[q]);
      RunIsSound(bs, q, ops[q]);
    }
    hide RunOps, LogOf, SoundStream, IsRun, Few, Inv, Sorted, NextOf, Sub, Waiting, PendingMsgs, OfLane, MsgsTo,
        Classes;
    RunOrdered(l, states, acts, n);
    var (s, out) := (states[n], l.outs[p]);
    var done := OfLane(s.delivered, p);
    var rest := Waiting(s.rx.lanes[p]) + PendingMsgs(s, p);
    DonePart(done, rest);
    SubTrans(done, Line(s, p), MsgsTo(out, NextOf(s.arrivals, p)));
    MsgsGrow(out, NextOf(s.arrivals, p), |out|);
    SubTrans(done, MsgsTo(out, NextOf(s.arrivals, p)), MsgsTo(out, |out|));
    var st := RunOps(bs, p, ops[p]);
    MadePart(st);
    SubTrans(done, MsgsTo(out, |out|), Made(st));
    ClassesSub(done, Made(st));
    RunMade(bs, p, ops[p]);
    SubTrans(Classes(done), Classes(Made(st)), Pushes(ops[p]));
  }

  lemma DonePart<T>(a: seq<T>, b: seq<T>)
    ensures Sub(a, a + b)
  {
    SubRefl(a);
    SubNone(b);
    SubAppend(a, a, [], b);
    assert a + [] == a;
  }

  lemma MadePart(st: Stage)
    ensures Sub(MsgsTo(st.out, |st.out|), Made(st))
  {
    hide Sub, MsgsTo, Tag;
    DonePart(MsgsTo(st.out, |st.out|),
             if st.open.Some? && st.open.value.FrameBatch? then Tag(st.open.value.msgs, st.open.value.qos) else []);
  }
}
