/** Delivery over a lossy link, as a system: any part of four sound streams arrives in any interleaving, batches are
    queued, discarded and pulled at any moment. Every message ever delivered was sent, whole, with its priority and
    class. */
module LossyLink {
  import opened Base
  import opened Codec
  import opened RxSpec
  import opened TxSpec
  import opened Loss

  datatype Link = Link(outs: seq<seq<Batch>>, logs: seq<Log>, cap: nat, size: nat)

  datatype Sys = Sys(rx: Rx, arrivals: seq<Arrival>, pending: Option<Item>, delivered: seq<(Msg, QoS)>)

  datatype Action = Arrive(p: Priority, k: nat) | Enqueue | Discard | Congest(p: Priority) | Pull

  const INIT_SYS := Sys(INIT_RX, [], None, [])

  predicate Enabled(l: Link, s: Sys, a: Action)
    requires |l.outs| == 4
  {
    match a
    case Arrive(p, k) => s.pending.None? && NextOf(s.arrivals, p) <= k < |l.outs[p]|
    case Enqueue => s.pending.Some?
    case Discard => s.pending.Some?
    case Congest(p) => true
    case Pull => true
  }

  function Apply(l: Link, s: Sys, a: Action): Sys
    requires |l.outs| == 4 && RxSpec.Shape(s.rx) && Enabled(l, s, a)
  {
    match a
    case Arrive(p, k) =>
      var (rx, got) := Receive(s.rx, Wire(l.outs[p][k]), l.cap);
      s.(rx := rx, arrivals := s.arrivals + [Arrival(p, k)], pending := if got.Queue? then Some(got.item) else None)
    case Enqueue =>
      var (rx, ok) := Offer(s.rx, s.pending.value, l.size);
      s.(rx := rx, pending := if ok then None else s.pending)
    case Discard => s.(pending := None)
    case Congest(p) => s.(rx := SetCongested(s.rx, p))
    case Pull =>
      var (rx, r) := TryPull(s.rx);
      s.(rx := rx, delivered := if r.Some? then s.delivered + [r.value] else s.delivered)
  }

  /** Every message an item still holds was sent with its priority and class. */
  ghost predicate ItemSent(l: Link, item: Item)
    requires |l.logs| == 4
  {
    forall m :: m in ParseAll(item.rest) ==> (m, item.qos.cc) in l.logs[item.qos.priority]
  }

  ghost predicate SentLane(l: Link, lane: seq<Item>)
    requires |l.logs| == 4
  {
    forall i :: 0 <= i < |lane| ==> ItemSent(l, lane[i])
  }

  ghost predicate SentLanes(l: Link, rx: Rx)
    requires |l.logs| == 4 && RxSpec.Shape(rx)
  {
    forall p: Priority :: SentLane(l, rx.lanes[p])
  }

  ghost predicate SentAll(l: Link, ms: seq<(Msg, QoS)>)
    requires |l.logs| == 4
  {
    forall i :: 0 <= i < |ms| ==> (ms[i].0, ms[i].1.cc) in l.logs[ms[i].1.priority]
  }

  ghost predicate Inv(l: Link, s: Sys)
  {
    && SoundStreams(l.outs, l.logs) && RxSpec.Shape(s.rx)
    && InOrder(l.outs, s.arrivals) && AllSafe(l.outs, s.rx, s.arrivals)
    && SentLanes(l, s.rx) && (s.pending.Some? ==> ItemSent(l, s.pending.value)) && SentAll(l, s.delivered)
  }

  lemma ArriveKeeps(l: Link, s: Sys, p: Priority, k: nat)
    requires Inv(l, s) && Enabled(l, s, Arrive(p, k))
    ensures Inv(l, Apply(l, s, Arrive(p, k)))
  {
    hide SentLane, Wire, AllSafe, Receive, NextOf, ParseAll, EncodeMsgs, SoundStream, ItemSent;
    var arrivals := s.arrivals + [Arrival(p, k)];
    assert arrivals[..|arrivals| - 1] == s.arrivals;
    ArrivalSafe(l.outs, l.logs, s.rx, arrivals, l.cap);
    ReceiveLanes(s.rx, Wire(l.outs[p][k]), l.cap);
    var a := Receive(s.rx, Wire(l.outs[p][k]), l.cap).1;
    if a.Queue? {
      assert SoundStream(l.outs[p], l.logs[p], p);
      StreamAt(l.outs[p], l.logs[p], p, k);
      DeliversWhole(l.outs[p], k, a, p, l.logs[p]);
      assert ItemSent(l, a.item) by { MadeIsSent(l, a.item, p); }
    }
  }

  lemma MadeIsSent(l: Link, item: Item, p: Priority)
    requires |l.logs| == 4 && MadeOf(item, p, l.logs[p])
    ensures ItemSent(l, item)
  {}

  lemma StreamAt(out: seq<Batch>, log: Log, p: Priority, k: nat)
    requires SoundStream(out, log, p) && k < |out|
    ensures Whole(out, k, log) && out[k].qos.priority == p
  {
    hide Linked, Numbered, Distinct, Whole;
  }

  lemma ReceiveLanes(rx: Rx, bytes: seq<byte>, cap: nat)
    requires RxSpec.Shape(rx)
    ensures Receive(rx, bytes, cap).0.lanes == rx.lanes
  {
    hide DecodeHeader, RxSpec.Fragment;
  }

  lemma SafeApart(l: Link, rx: Rx, rx': Rx, arrivals: seq<Arrival>)
    requires |l.outs| == 4 && RxSpec.Shape(rx) && RxSpec.Shape(rx') && rx'.block == rx.block && rx'.drop == rx.drop
    requires AllSafe(l.outs, rx, arrivals)
    ensures AllSafe(l.outs, rx', arrivals)
  {
    hide Safe, NextOf;
  }

  lemma QueueKeeps(l: Link, s: Sys)
    requires Inv(l, s) && Enabled(l, s, Action.Enqueue)
    ensures Inv(l, Apply(l, s, Action.Enqueue))
  {
    hide ItemSent, AllSafe, InOrder, SoundStream;
    SafeApart(l, s.rx, Offer(s.rx, s.pending.value, l.size).0, s.arrivals);
  }

  lemma DropKeeps(l: Link, rx: Rx, p: Priority)
    requires |l.logs| == 4 && RxSpec.Shape(rx) && SentLanes(l, rx) && rx.lanes[p] != []
    ensures RxSpec.Shape(DropHead(rx, p)) && SentLanes(l, DropHead(rx, p))
  {
    hide ItemSent;
  }

  /** A call returns a sent message and leaves sent messages. */
  lemma {:induction false} PullSent(l: Link, rx: Rx)
    requires |l.logs| == 4 && RxSpec.Shape(rx) && SentLanes(l, rx)
    ensures var (rx', r) := TryPull(rx);
            && RxSpec.Shape(rx') && SentLanes(l, rx') && rx'.block == rx.block && rx'.drop == rx.drop
            && (r.Some? ==> (r.value.0, r.value.1.cc) in l.logs[r.value.1.priority])
    decreases Total(rx.lanes)
  {
    hide DecodeMsg, ParseAll, ItemSent, Highest;
    match Highest(rx.lanes)
    case None =>
    case Some(p) =>
      var head := rx.lanes[p][0];
      if (rx.congested[head.qos.priority] && head.qos.cc.Drop?) || DecodeMsg(head.rest).None? {
        DropKeeps(l, rx, p);
        PullSent(l, DropHead(rx, p));
      } else {
        var (m, n) := DecodeMsg(head.rest).value;
        assert SentLane(l, rx.lanes[p]);
        HeadSent(l, head, m, n);
        forall q: Priority ensures SentLane(l, TryPull(rx).0.lanes[q]) {
          assert SentLane(l, rx.lanes[q]);
        }
      }
  }

  lemma HeadSent(l: Link, item: Item, m: Msg, n: nat)
    requires |l.logs| == 4 && ItemSent(l, item) && DecodeMsg(item.rest) == Some((m, n))
    ensures (m, item.qos.cc) in l.logs[item.qos.priority] && n <= |item.rest|
    ensures ItemSent(l, item.(rest := item.rest[n..]))
  {
    hide DecodeMsg;
    var more := ParseAll(item.rest[n..]);
    assert ParseAll(item.rest) == [m] + more;
    assert m in [m] + more && forall x :: x in more ==> x in [m] + more;
  }

  lemma PullKeeps(l: Link, s: Sys)
    requires Inv(l, s)
    ensures Inv(l, Apply(l, s, Pull))
  {
    hide ItemSent, AllSafe, InOrder, SoundStream, TryPull, SentLane;
    PullSent(l, s.rx);
    SafeApart(l, s.rx, TryPull(s.rx).0, s.arrivals);
  }

  lemma StepKeeps(l: Link, s: Sys, a: Action)
    requires Inv(l, s) && Enabled(l, s, a)
    ensures Inv(l, Apply(l, s, a))
  {
    match a
    case Arrive(p, k) => ArriveKeeps(l, s, p, k);
    case Enqueue => QueueKeeps(l, s);
    case Discard =>
    case Congest(p) =>
      hide ItemSent, InOrder, SoundStreams, AllSafe;
      SafeApart(l, s.rx, SetCongested(s.rx, p), s.arrivals);
    case Pull => PullKeeps(l, s);
  }

  ghost predicate IsRun(l: Link, states: seq<Sys>, acts: seq<Action>)
    requires |l.outs| == 4
  {
    && |states| == |acts| + 1 && states[0] == INIT_SYS
    && forall i :: 0 <= i < |acts| ==>
         RxSpec.Shape(states[i].rx) && Enabled(l, states[i], acts[i]) && states[i + 1] == Apply(l, states[i], acts[i])
  }

  lemma InitInv(l: Link)
    requires SoundStreams(l.outs, l.logs)
    ensures Inv(l, INIT_SYS)
  {
    FeedSafe(l.outs, l.logs, [], l.cap);
  }

  lemma {:induction false} RunKeeps(l: Link, states: seq<Sys>, acts: seq<Action>, n: nat)
    requires SoundStreams(l.outs, l.logs) && IsRun(l, states, acts) && n <= |acts|
    ensures Inv(l, states[n])
  {
    hide Inv, Apply, Enabled, SoundStream;
    if n == 0 {
      InitInv(l);
    } else {
      RunKeeps(l, states, acts, n - 1);
      StepKeeps(l, states[n - 1], acts[n - 1]);
    }
  }

  /** Delivery under loss: run four senders in any way that commits fewer than 2^28 batches of each class and
      priority, lose any of their batches, and let the receiver queue, discard and deliver in any way: every message
      it ever delivers is one that was given to `push`, whole, at that priority and with that congestion control. */
  lemma DeliveredWasSent(bs: BatchSize, ops: seq<seq<Op>>, l: Link, states: seq<Sys>, acts: seq<Action>, n: nat, i: nat)
    requires Senders(bs, ops, l.outs, l.logs) && (forall p: Priority :: Few(l.outs[p]))
    requires IsRun(l, states, acts) && n <= |acts| && i < |states[n].delivered|
    ensures var (m, q) := states[n].delivered[i]; (m, q.cc) in LogOf(ops[q.priority])
  {
    forall p: Priority ensures SoundStream(l.outs[p], l.logs[p], p) {
      hide RunOps, LogOf, SoundStream, Few;
      assert Few(l.outs[p]);
      RunIsSound(bs, p, ops[p]);
    }
    hide RunOps, LogOf, SoundStream, IsRun, Few;
    RunKeeps(l, states, acts, n);
    hide AllSafe, InOrder, SentLanes, ItemSent;
  }
}
