/** The whole path over a reliable link: four transmit priorities, batches reaching the receiver in any interleaving of
    the four streams, reassembly, four receive lanes, delivery by strict priority, congestion included. */
module EndToEnd {
  import opened Base
  import opened Codec
  import opened TxSpec
  import opened RxSpec
  import opened Reassembly
  import Loss

  type Tagged = (Msg, QoS)

  /** Express is a property of the frame, not of the message: forget it. */
  function Plain(ms: seq<Tagged>): seq<Tagged>
  {
    if ms == [] then [] else [(ms[0].0, ms[0].1.(express := false))] + Plain(ms[1..])
  }

  lemma {:induction false} PlainAppend(a: seq<Tagged>, b: seq<Tagged>)
    ensures Plain(a + b) == Plain(a) + Plain(b)
  {
    if a == [] {
      assert a + b == b;
    } else {
      assert (a + b)[1..] == a[1..] + b;
      PlainAppend(a[1..], b);
    }
  }

  lemma {:induction false} PlainBlocking(ms: seq<Tagged>)
    ensures Blocking(Plain(ms)) == Plain(Blocking(ms))
  {
    if ms != [] {
      var x := (ms[0].0, ms[0].1.(express := false));
      assert Plain(ms)[1..] == Plain(ms[1..]) && Plain(ms)[0] == x;
      PlainBlocking(ms[1..]);
      PlainAppend(IfBlock(ms[0]), Blocking(ms[1..]));
      assert Plain([ms[0]]) == [x] + Plain([]);
    }
  }

  // ---- a push, seen from the receiver ----------------------------------------------------------

  function OpenOf(st: Stage): seq<Batch>
  {
    if st.open.Some? then [st.open.value] else []
  }

  /** The batches of a priority that have not arrived, the booked one last. */
  function InFlight(st: Stage, i: nat): seq<Batch>
    requires i <= |st.out|
  {
    st.out[i..] + OpenOf(st)
  }

  lemma CommitInFlight(st: Stage, i: nat)
    requires i <= |st.out|
    ensures i <= |Commit(st).out| && InFlight(Commit(st), i) == InFlight(st, i)
  {}

  /** `more` is what the receiver will make of st' beyond what it makes of st. */
  ghost predicate Grows(st: Stage, st': Stage, i: nat, d: Bufs, cap: nat, more: seq<Tagged>)
    requires i <= |st.out|
  {
    i <= |st'.out| && Absorb(d, InFlight(st', i), cap) == Absorb(d, InFlight(st, i), cap) + more
  }

  /** More batches. */
  lemma GrowsBy(st: Stage, st': Stage, i: nat, d: Bufs, cap: nat, x: seq<Batch>, more: seq<Tagged>)
    requires i <= |st.out| <= |st'.out| && InFlight(st', i) == InFlight(st, i) + x
    requires forall e: Bufs :: Absorb(e, x, cap) == more
    ensures Grows(st, st', i, d, cap, more)
  {
    hide Absorb, InFlight;
    AbsorbAppend(d, InFlight(st, i), x, cap);
  }

  lemma FrameGrows(st: Stage, qos: QoS, s: SeqNum, m: Msg, i: nat, d: Bufs, cap: nat)
    requires i <= |st.out| && st.open.None?
    ensures var st' := SetSeq(st, qos.cc, s).(open := Some(FrameBatch(qos, s, [m])));
            Grows(st, st', i, d, cap, [(m, qos)]) && Grows(st, Commit(st'), i, d, cap, [(m, qos)])
  {
    var b := FrameBatch(qos, s, [m]);
    var st' := SetSeq(st, qos.cc, s).(open := Some(b));
    forall e: Bufs ensures Absorb(e, [b], cap) == [(m, qos)] {
      AbsorbOne(e, b, cap);
      TakeFrame(e, b, cap);
      TagPush([], m, qos);
    }
    hide Absorb;
    GrowsBy(st, st', i, d, cap, [b], [(m, qos)]);
    CommitInFlight(st', i);
  }

  lemma AppendGrows(st: Stage, m: Msg, i: nat, d: Bufs, cap: nat)
    requires i <= |st.out| && st.open.Some? && st.open.value.FrameBatch?
    ensures var q := st.open.value.qos;
            var st' := st.(open := Some(Append(st.open.value, m)));
            Grows(st, st', i, d, cap, [(m, q)]) && Grows(st, Commit(st'), i, d, cap, [(m, q)])
  {
    var b := st.open.value;
    var b' := Append(b, m);
    var st' := st.(open := Some(b'));
    var before := st.out[i..];
    var e := After(d, before, cap);
    AbsorbAppend(d, before, [b], cap);
    AbsorbAppend(d, before, [b'], cap);
    AbsorbOne(e, b, cap);
    AbsorbOne(e, b', cap);
    TakeFrame(e, b, cap);
    TakeFrame(e, b', cap);
    TagPush(b.msgs, m, b.qos);
    hide Absorb, Tag, Take, MsgsOf, After;
    CommitInFlight(st', i);
  }

  lemma FragmentsGrow(st: Stage, cc: CongestionControl, l: seq<Batch>, qos: QoS, s: SeqNum, id: SeqNum, k: nat, m: Msg,
                      i: nat, d: Bufs, cap: nat)
    requires i <= |st.out| && st.open.None? && 1 <= k <= |l| && |l| >= 2
    requires Loss.AreFragments(l, qos, s, id) && Payloads(l) == EncodeMsg(m) && |EncodeMsg(m)| <= cap
    ensures Grows(st, AfterFragments(st, cc, id, l, k), i, d, cap, if k == |l| then [(m, qos)] else [])
  {
    hide EncodeMsg, Payloads, Absorb, Loss.AreFragments;
    var st' := AfterFragments(st, cc, id, l, k);
    if k == |l| {
      assert l[..k] == l;
      forall e: Bufs ensures Absorb(e, l[..k], cap) == [(m, qos)] {
        AbsorbFragments(e, l, qos, s, id, m, cap);
      }
    } else {
      forall e: Bufs ensures Absorb(e, l[..k], cap) == [] {
        forall j | 0 <= j < k ensures l[j].FragBatch? && !l[j].kind.Last? {
          LastKind(l, qos, s, id, j);
        }
        AbsorbCut(e, l[..k], cap);
      }
    }
    assert InFlight(st', i) == InFlight(st, i) + l[..k];
    GrowsBy(st, st', i, d, cap, l[..k], if k == |l| then [(m, qos)] else []);
  }

  /** The receiver takes fragments of this message up to its limit, or the message needs none. */
  predicate Deliverable(bs: BatchSize, cap: nat, st: Stage, m: Msg, qos: QoS)
  {
    |EncodeMsg(m)| <= cap || Fits(bs, FrameBatch(qos, NextSeq(SeqOf(st, qos.cc)), [m]))
  }

  /** The pulling side is alive: no notification failed. Waiting for a batch may still time out at any point. */
  predicate Alive(env: Env, r: SendResult)
  {
    env.denial != Closed && r != SendResult.Failed(Closed)
  }

  lemma NothingGrows(st: Stage, st': Stage, i: nat, d: Bufs, cap: nat)
    requires i <= |st.out| && st' == Commit(st)
    ensures Grows(st, st', i, d, cap, []) && Grows(st, st, i, d, cap, [])
  {
    hide Absorb;
    CommitInFlight(st, i);
    assert Absorb(d, InFlight(st, i), cap) + [] == Absorb(d, InFlight(st, i), cap);
  }

  lemma PushFreshGrows(bs: BatchSize, st: Stage, m: Msg, qos: QoS, env: Env, i: nat, d: Bufs, cap: nat)
    requires i <= |st.out| && st.open.None? && Deliverable(bs, cap, st, m, qos)
    requires Alive(env, PushFresh(bs, st, m, qos, env).1)
    ensures var (st', r) := PushFresh(bs, st, m, qos, env);
            Grows(st, st', i, d, cap, if r.Pushed? then [(m, qos)] else [])
  {
    var s, id := NextSeq(SeqOf(st, qos.cc)), NextSeq(st.fragId);
    if env.grants == 0 {
      NothingGrows(st, st, i, d, cap);
    } else if Fits(bs, FrameBatch(qos, s, [m])) {
      hide Grows, Fits, Commit;
      FrameGrows(st, qos, s, m, i, d, cap);
    } else {
      FragmentShape(bs, qos, s, id, m);
      Loss.FragmentsAre(bs, qos, s, id, m);
      var l := FragmentsOf(bs, qos, s, id, m);
      hide Grows, Fits, FragmentsOf, AfterFragments, Payloads, EncodeMsg, FragAt, Wire, Loss.AreFragments, NextSeq;
      FragmentsGrow(st, qos.cc, l, qos, s, id, Committed(|l|, env.grants - 1, env.notifies), m, i, d, cap);
    }
  }

  /** A push adds its message to what the receiver will make of the priority's batches, and nothing else, exactly when
      it reports success; the message keeps its priority and its congestion control. */
  lemma PushGrows(bs: BatchSize, st: Stage, m: Msg, qos: QoS, env: Env, i: nat, d: Bufs, cap: nat)
      returns (more: seq<Tagged>)
    requires i <= |st.out| && StageInv(bs, qos.priority, st) && Deliverable(bs, cap, st, m, qos)
    requires Alive(env, Push(bs, st, m, qos, env).1)
    ensures var (st', r) := Push(bs, st, m, qos, env);
            Grows(st, st', i, d, cap, more) && Plain(more) == if r.Pushed? then [(m, qos.(express := false))] else []
  {
    hide Fits, Grows, Deliverable, PushFresh;
    var r := Push(bs, st, m, qos, env).1;
    more := if r.Pushed? then [(m, qos)] else [];
    if st.open.None? {
      PushFreshGrows(bs, st, m, qos, env, i, d, cap);
      PlainOne(m, qos);
    } else if st.open.value.qos.cc == qos.cc && Fits(bs, Append(st.open.value, m)) {
      AppendGrows(st, m, i, d, cap);
      more := [(m, st.open.value.qos)];
      PlainOne(m, st.open.value.qos);
    } else {
      CommitGrows(bs, st, m, qos, env.(notifies := env.notifies - 1), i, d, cap);
      PlainOne(m, qos);
    }
  }

  lemma PlainOne(m: Msg, q: QoS)
    ensures Plain([(m, q)]) == [(m, q.(express := false))] && Plain([]) == []
  {
    assert Plain([(m, q)]) == [(m, q.(express := false))] + Plain([]);
  }

  lemma CommitGrows(bs: BatchSize, st: Stage, m: Msg, qos: QoS, env: Env, i: nat, d: Bufs, cap: nat)
    requires i <= |st.out| && Deliverable(bs, cap, st, m, qos)
    requires Alive(env, PushFresh(bs, Commit(st), m, qos, env).1)
    ensures var (st', r) := PushFresh(bs, Commit(st), m, qos, env);
            Grows(st, st', i, d, cap, if r.Pushed? then [(m, qos)] else [])
  {
    hide Fits, PushFresh, Absorb;
    CommitInFlight(st, i);
    PushFreshGrows(bs, Commit(st), m, qos, env, i, d, cap);
  }

  // ---- the system ------------------------------------------------------------------------------

  /** `sent` counts the batches of each priority that arrived; `pending` is the batch the receiving task is queueing;
      `calm` holds until congestion is first declared. `pushed` and `delivered` record what happened, per priority. */
  datatype Sys = Sys(tx: seq<Stage>, sent: seq<nat>, rx: Rx, pending: Option<Item>, calm: bool,
                     pushed: seq<seq<Tagged>>, delivered: seq<seq<Tagged>>)

  datatype Config = Config(bs: BatchSize, cap: nat, size: nat)

  datatype Action =
    | DoPush(p: Priority, m: Msg, cc: CongestionControl, express: bool, env: Env)
    | Flush(p: Priority)
    | Arrive(p: Priority)
    | Shed(p: Priority)
    | DoOffer
    | Discard
    | Congest(p: Priority)
    | Pull

  const INIT_SYS := Sys([INIT_STAGE, INIT_STAGE, INIT_STAGE, INIT_STAGE], [0, 0, 0, 0], INIT_RX, None, true,
                       [[], [], [], []], [[], [], [], []])

  predicate Shaped(s: Sys)
  {
    && |s.tx| == 4 && |s.sent| == 4 && RxSpec.Shape(s.rx) && |s.pushed| == 4 && |s.delivered| == 4
    && (forall p: Priority :: s.sent[p] <= |s.tx[p].out|)
  }

  /** A push needs a living puller and a message the receiver can take; the receiving task handles one batch at a time;
      the puller sheds a batch that is droppable, or a fragment of a message whose push failed; the receiver discards
      droppable batches only. */
  predicate Enabled(c: Config, s: Sys, a: Action)
    requires Shaped(s)
  {
    match a
    case DoPush(p, m, cc, express, env) =>
      && Deliverable(c.bs, c.cap, s.tx[p], m, QoS(p, cc, express))
      && Alive(env, TxSpec.Push(c.bs, s.tx[p], m, QoS(p, cc, express), env).1)
    case Flush(p) => true
    case Arrive(p) => s.pending.None? && s.sent[p] < |s.tx[p].out|
    case Shed(p) =>
      && s.sent[p] < |s.tx[p].out|
      && (s.tx[p].out[s.sent[p]].qos.cc.Drop? || Doomed(s.tx[p].out[s.sent[p]..]))
    case DoOffer => s.pending.Some?
    case Discard => s.pending.Some? && s.pending.value.qos.cc.Drop?
    case Congest(p) => true
    case Pull => true
  }

  function Apply(c: Config, s: Sys, a: Action): Sys
    requires Shaped(s) && Enabled(c, s, a)
  {
    match a
    case DoPush(p, m, cc, express, env) =>
      var (st, r) := TxSpec.Push(c.bs, s.tx[p], m, QoS(p, cc, express), env);
      s.(tx := s.tx[p := st],
         pushed := if r.Pushed? then s.pushed[p := s.pushed[p] + [(m, QoS(p, cc, false))]] else s.pushed)
    case Flush(p) => s.(tx := s.tx[p := Commit(s.tx[p])])
    case Arrive(p) =>
      var (rx, got) := Receive(s.rx, Wire(s.tx[p].out[s.sent[p]]), c.cap);
      s.(sent := s.sent[p := s.sent[p] + 1], rx := rx, pending := if got.Queue? then Some(got.item) else None)
    case Shed(p) => s.(sent := s.sent[p := s.sent[p] + 1], calm := s.calm && Doomed(s.tx[p].out[s.sent[p]..]))
    case DoOffer =>
      var (rx, ok) := RxSpec.Offer(s.rx, s.pending.value, c.size);
      s.(rx := rx, pending := if ok then None else s.pending)
    case Discard => s.(pending := None, calm := false)
    case Congest(p) => s.(rx := SetCongested(s.rx, p), calm := false)
    case Pull =>
      var (rx, r) := TryPull(s.rx);
      s.(rx := rx,
         delivered :=
           if r.Some? then s.delivered[r.value.1.priority := s.delivered[r.value.1.priority] + [r.value]]
           else s.delivered)
  }

  function BufsOf(rx: Rx, p: Priority): Bufs
    requires RxSpec.Shape(rx)
  {
    Bufs(rx.block[p], rx.drop[p])
  }

  function PendingOf(s: Sys, p: Priority): seq<Tagged>
  {
    if s.pending.Some? && s.pending.value.qos.priority == p then
      Tag(ParseAll(s.pending.value.rest), s.pending.value.qos)
    else []
  }

  /** What priority p has still to deliver, in order: its lane, the batch being queued, the batches on their way. */
  function Ahead(c: Config, s: Sys, p: Priority): seq<Tagged>
    requires Shaped(s)
  {
    Waiting(s.rx.lanes[p]) + (PendingOf(s, p) + Absorb(BufsOf(s.rx, p), InFlight(s.tx[p], s.sent[p]), c.cap))
  }

  /** Until congestion is declared every message counts, afterwards those that may not be dropped. */
  function Kept(calm: bool, ms: seq<Tagged>): seq<Tagged>
  {
    if calm then ms else Blocking(ms)
  }

  /** Priority p: what was pushed is what was delivered followed by what is ahead. */
  ghost predicate Balanced(c: Config, s: Sys, p: Priority)
    requires Shaped(s)
  {
    Kept(s.calm, s.pushed[p]) == Kept(s.calm, Plain(s.delivered[p] + Ahead(c, s, p)))
  }

  ghost predicate Inv(c: Config, s: Sys)
  {
    && Shaped(s) && Sorted(s.rx) && (s.calm ==> NoCongestion(s.rx))
    && (forall p: Priority :: LaneInv(c, s, p))
  }

  /** The committed batches are a sound stream of some messages. */
  ghost predicate Traced(st: Stage)
  {
    exists log :: Loss.Sound(st, log)
  }

  ghost predicate LaneInv(c: Config, s: Sys, p: Priority)
    requires Shaped(s)
  {
    && StageInv(c.bs, p, s.tx[p]) && Traced(s.tx[p]) && Balanced(c, s, p)
    && forall i :: 0 <= i < |s.delivered[p]| ==> s.delivered[p][i].1.priority == p
  }

  lemma KeptAppend(calm: bool, a: seq<Tagged>, b: seq<Tagged>)
    ensures Kept(calm, a + b) == Kept(calm, a) + Kept(calm, b)
  {
    BlockingAppend(a, b);
  }

  /** Counting fewer messages keeps a balance. */
  lemma KeptWeaken(calm: bool, a: seq<Tagged>, b: seq<Tagged>)
    requires Kept(true, a) == Kept(true, b) || Kept(calm, a) == Kept(calm, b)
    ensures Kept(false, a) == Kept(false, b)
  {}

  lemma KeptPlain(calm: bool, a: seq<Tagged>, b: seq<Tagged>)
    requires Kept(calm, a) == Kept(calm, b)
    ensures Kept(calm, Plain(a)) == Kept(calm, Plain(b))
  {
    PlainBlocking(a);
    PlainBlocking(b);
  }

  /** The shape of every step but a push: nothing is pushed, and delivered plus ahead stays the same. */
  lemma BalanceMoves(c: Config, s: Sys, s': Sys, p: Priority)
    requires Shaped(s) && Shaped(s') && Balanced(c, s, p)
    requires s'.pushed[p] == s.pushed[p] && (s'.calm ==> s.calm)
    requires Kept(s'.calm, s'.delivered[p] + Ahead(c, s', p)) == Kept(s'.calm, s.delivered[p] + Ahead(c, s, p))
    ensures Balanced(c, s', p)
  {
    hide Ahead, Plain;
    var x, y := s.delivered[p] + Ahead(c, s, p), s'.delivered[p] + Ahead(c, s', p);
    KeptPlain(s'.calm, x, y);
    if !s'.calm {
      KeptWeaken(s.calm, s.pushed[p], Plain(x));
    }
  }

  lemma BalanceGrows(c: Config, s: Sys, s': Sys, p: Priority, more: seq<Tagged>)
    requires Shaped(s) && Shaped(s') && Balanced(c, s, p) && s'.calm == s.calm && s'.delivered == s.delivered
    requires Ahead(c, s', p) == Ahead(c, s, p) + more && s'.pushed[p] == s.pushed[p] + Plain(more)
    ensures Balanced(c, s', p)
  {
    hide Ahead, Plain, Kept;
    var x := s.delivered[p] + Ahead(c, s, p);
    assert s'.delivered[p] + Ahead(c, s', p) == x + more;
    PlainAppend(x, more);
    KeptAppend(s.calm, Plain(x), Plain(more));
    KeptAppend(s.calm, s.pushed[p], Plain(more));
  }

  /** A step does not concern priority p. */
  predicate SameLane(s: Sys, s': Sys, p: Priority)
    requires Shaped(s) && Shaped(s')
  {
    && s'.calm == s.calm && s'.tx[p] == s.tx[p] && s'.sent[p] == s.sent[p]
    && s'.pushed[p] == s.pushed[p] && s'.delivered[p] == s.delivered[p]
    && s'.rx.lanes[p] == s.rx.lanes[p] && BufsOf(s'.rx, p) == BufsOf(s.rx, p) && PendingOf(s', p) == PendingOf(s, p)
  }

  lemma LaneApart(c: Config, s: Sys, s': Sys, p: Priority)
    requires Shaped(s) && Shaped(s') && LaneInv(c, s, p) && SameLane(s, s', p)
    ensures LaneInv(c, s', p)
  {
    hide Waiting, Absorb, InFlight, Plain, Kept, PendingOf, BufsOf, StageInv;
  }

  /** A step that concerns priority p only. */
  lemma OneLane(c: Config, s: Sys, s': Sys, p: Priority)
    requires Inv(c, s) && Shaped(s') && Sorted(s'.rx) && (s'.calm ==> NoCongestion(s'.rx)) && LaneInv(c, s', p)
    requires forall q: Priority :: q != p ==> SameLane(s, s', q)
    ensures Inv(c, s')
  {
    hide LaneInv, SameLane, Sorted, NoCongestion;
    forall q: Priority ensures LaneInv(c, s', q) {
      if q != p {
        LaneApart(c, s, s', q);
      }
    }
  }

  // ---- every step ------------------------------------------------------------------------------

  lemma PushKeeps(c: Config, s: Sys, p: Priority, m: Msg, cc: CongestionControl, express: bool, env: Env)
    requires Inv(c, s) && Enabled(c, s, DoPush(p, m, cc, express, env))
    ensures Inv(c, Apply(c, s, DoPush(p, m, cc, express, env)))
  {
    hide Traced, StageInv, TxSpec.Push, Deliverable, Alive, Sorted, NoCongestion, Grows, Balanced, BufsOf, PendingOf,
        Plain;
    var qos := QoS(p, cc, express);
    var s' := Apply(c, s, DoPush(p, m, cc, express, env));
    assert LaneInv(c, s, p);
    PushKeepsInv(c.bs, p, s.tx[p], m, qos, env);
    PushTraced(c.bs, s.tx[p], m, qos, env);
    var more := PushGrows(c.bs, s.tx[p], m, qos, env, s.sent[p], BufsOf(s.rx, p), c.cap);
    assert s'.pushed[p] == s.pushed[p] + Plain(more);
    GrowsAhead(c, s, s', p, more);
    hide Apply, Enabled, Ahead;
    BalanceGrows(c, s, s', p, more);
    PushApart(s, s', p);
    OneLane(c, s, s', p);
  }

  lemma PushTraced(bs: BatchSize, st: Stage, m: Msg, qos: QoS, env: Env)
    requires Traced(st)
    ensures Traced(TxSpec.Push(bs, st, m, qos, env).0)
  {
    hide Loss.Sound, TxSpec.Push;
    var log :| Loss.Sound(st, log);
    Loss.SoundMore(st, log, (m, qos.cc));
    Loss.PushSound(bs, st, log + {(m, qos.cc)}, m, qos, env);
  }

  lemma CommitTraced(st: Stage)
    requires Traced(st)
    ensures Traced(Commit(st))
  {
    hide Loss.Sound, Commit;
    var log :| Loss.Sound(st, log);
    Loss.CommitSound(st, log);
  }

  lemma TracedLinked(st: Stage)
    requires Traced(st)
    ensures Loss.Linked(st.out)
  {
    hide Loss.Linked, Loss.Numbered, Loss.Whole;
  }

  lemma PushApart(s: Sys, s': Sys, p: Priority)
    requires Shaped(s) && Shaped(s') && s' == s.(tx := s'.tx, pushed := s'.pushed)
    requires forall q: Priority :: q != p ==> s'.tx[q] == s.tx[q] && s'.pushed[q] == s.pushed[q]
    ensures forall q: Priority :: q != p ==> SameLane(s, s', q)
  {}

  lemma GrowsAhead(c: Config, s: Sys, s': Sys, p: Priority, more: seq<Tagged>)
    requires Shaped(s) && |s'.tx| == 4 && s' == s.(tx := s'.tx, pushed := s'.pushed) && |s'.pushed| == 4
    requires Grows(s.tx[p], s'.tx[p], s.sent[p], BufsOf(s.rx, p), c.cap, more)
    requires forall q: Priority :: q != p ==> s'.tx[q] == s.tx[q]
    ensures Shaped(s') && Ahead(c, s', p) == Ahead(c, s, p) + more
  {
    hide Waiting, Absorb, InFlight;
    assert PendingOf(s', p) == PendingOf(s, p);
    hide PendingOf;
  }

  lemma FlushKeeps(c: Config, s: Sys, p: Priority)
    requires Inv(c, s)
    ensures Inv(c, Apply(c, s, Flush(p)))
  {
    hide Traced, StageInv, Sorted, NoCongestion, Balanced, BufsOf, PendingOf, Waiting, Absorb, InFlight;
    var s' := Apply(c, s, Flush(p));
    assert LaneInv(c, s, p);
    CommitKeepsInv(c.bs, p, s.tx[p]);
    CommitTraced(s.tx[p]);
    CommitInFlight(s.tx[p], s.sent[p]);
    hide Commit;
    assert Shaped(s');
    FlushAhead(c, s, s', p);
    hide Ahead;
    BalanceMoves(c, s, s', p);
    PushApart(s, s', p);
    OneLane(c, s, s', p);
  }

  lemma FlushAhead(c: Config, s: Sys, s': Sys, p: Priority)
    requires Shaped(s) && Shaped(s') && s' == s.(tx := s'.tx)
    requires InFlight(s'.tx[p], s.sent[p]) == InFlight(s.tx[p], s.sent[p])
    ensures Ahead(c, s', p) == Ahead(c, s, p)
  {
    hide Waiting, Absorb, InFlight;
  }

  // ---- arrival ---------------------------------------------------------------------------------

  /** One batch arrives: what it makes moves from the link to the batch being queued. */
  lemma ArriveMoves(c: Config, st: Stage, i: nat, rx: Rx, p: Priority)
    requires RxSpec.Shape(rx) && i < |st.out| && st.out[i].qos.priority == p
    ensures var (rx', a) := Receive(rx, Wire(st.out[i]), c.cap);
            && RxSpec.Shape(rx') && rx'.lanes == rx.lanes && rx'.congested == rx.congested
            && (a.Queue? ==> a.item.qos.priority == p)
            && (forall q: Priority :: q != p ==> BufsOf(rx', q) == BufsOf(rx, q))
            && Absorb(BufsOf(rx, p), InFlight(st, i), c.cap)
               == MsgsOf(a) + Absorb(BufsOf(rx', p), InFlight(st, i + 1), c.cap)
  {
    var b := st.out[i];
    hide Absorb, Wire, EncodeMsgs, ParseAll, Tag, MsgsOf, Receive;
    Loss.ReceiveWire(rx, b, c.cap);
    HeadThen(BufsOf(rx, p), st.out, i, OpenOf(st), c.cap);
    assert Take(BufsOf(rx, p), b, c.cap).0 == BufsOf(Receive(rx, Wire(b), c.cap).0, p);
  }

  lemma ArriveKeeps(c: Config, s: Sys, p: Priority)
    requires Inv(c, s) && Enabled(c, s, Arrive(p))
    ensures Inv(c, Apply(c, s, Arrive(p)))
  {
    hide Traced, StageInv, Balanced, BufsOf, Waiting, Absorb, InFlight, Receive, Wire, MsgsOf;
    var s' := Apply(c, s, Arrive(p));
    assert LaneInv(c, s, p);
    var b := s.tx[p].out[s.sent[p]];
    assert b.qos.priority == p by { OutPriority(c.bs, p, s.tx[p], s.sent[p]); }
    ArriveMoves(c, s.tx[p], s.sent[p], s.rx, p);
    var a := Receive(s.rx, Wire(b), c.cap).1;
    assert PendingOf(s', p) == MsgsOf(a) by { PendingArrived(s', p, a); }
    hide PendingOf;
    assert PendingOf(s, p) == [] by { NothingPending(s, p); }
    assert Ahead(c, s', p) == Ahead(c, s, p) by {
      assert [] + Absorb(BufsOf(s.rx, p), InFlight(s.tx[p], s.sent[p]), c.cap)
          == MsgsOf(a) + Absorb(BufsOf(s'.rx, p), InFlight(s'.tx[p], s'.sent[p]), c.cap);
    }
    hide Ahead;
    BalanceMoves(c, s, s', p);
    forall q: Priority | q != p ensures SameLane(s, s', q) {
      NothingPending(s, q);
      PendingElsewhere(s', q);
    }
    OneLane(c, s, s', p);
  }

  lemma OutPriority(bs: BatchSize, p: Priority, st: Stage, i: nat)
    requires StageInv(bs, p, st) && i < |st.out|
    ensures st.out[i].qos.priority == p
  {
    hide Wire;
    assert GoodBatch(bs, p, st.out[i]);
  }

  lemma PendingArrived(s: Sys, p: Priority, a: Accept)
    requires s.pending == (if a.Queue? then Some(a.item) else None) && (a.Queue? ==> a.item.qos.priority == p)
    ensures PendingOf(s, p) == MsgsOf(a)
  {}

  lemma NothingPending(s: Sys, p: Priority)
    requires s.pending.None?
    ensures PendingOf(s, p) == []
  {}

  lemma PendingElsewhere(s: Sys, p: Priority)
    requires s.pending.Some? ==> s.pending.value.qos.priority != p
    ensures PendingOf(s, p) == []
  {}

  /** The puller discards a batch: nothing is lost if its message was doomed, and droppable messages only otherwise. */
  lemma ShedKeeps(c: Config, s: Sys, p: Priority)
    requires Inv(c, s) && Enabled(c, s, Shed(p))
    ensures Inv(c, Apply(c, s, Shed(p)))
  {
    hide Traced, StageInv, Balanced, BufsOf, Waiting, PendingOf, Absorb, Doomed, Kept, Sorted, NoCongestion;
    var s' := Apply(c, s, Shed(p));
    forall q: Priority ensures LaneInv(c, s', q) {
      assert LaneInv(c, s, q);
      if q == p {
        ShedAhead(c, s.tx[p], s.sent[p], BufsOf(s.rx, p), p, s'.calm);
      }
      hide InFlight;
      SamePending(s, s', q);
      MoveBack(s'.calm, s.delivered[q], Waiting(s.rx.lanes[q]), PendingOf(s, q),
               Absorb(BufsOf(s.rx, q), InFlight(s.tx[q], s.sent[q]), c.cap),
               Absorb(BufsOf(s.rx, q), InFlight(s.tx[q], s'.sent[q]), c.cap));
      assert Kept(s'.calm, s'.delivered[q] + Ahead(c, s', q)) == Kept(s'.calm, s.delivered[q] + Ahead(c, s, q));
      hide Ahead;
      BalanceMoves(c, s, s', q);
    }
  }

  lemma ShedAhead(c: Config, st: Stage, i: nat, d: Bufs, p: Priority, calm: bool)
    requires StageInv(c.bs, p, st) && Traced(st) && i < |st.out| && (st.out[i].qos.cc.Drop? || Doomed(st.out[i..]))
    requires calm ==> Doomed(st.out[i..])
    ensures Kept(calm, Absorb(d, InFlight(st, i + 1), c.cap)) == Kept(calm, Absorb(d, InFlight(st, i), c.cap))
  {
    hide Traced, StageInv, Absorb, Doomed, Loss.Linked, Blocking;
    TracedLinked(st);
    OpenFrame(c.bs, p, st);
    if Doomed(st.out[i..]) {
      ShedDoomed(d, st.out, i, OpenOf(st), c.cap);
    } else {
      assert InFlight(st, i) == [st.out[i]] + InFlight(st, i + 1);
      ShedDroppable(d, st.out[i], InFlight(st, i + 1), c.cap);
    }
  }

  lemma OpenFrame(bs: BatchSize, p: Priority, st: Stage)
    requires StageInv(bs, p, st)
    ensures |OpenOf(st)| <= 1 && (OpenOf(st) != [] ==> OpenOf(st)[0].FrameBatch?)
  {}

  lemma MoveBack(calm: bool, a: seq<Tagged>, b: seq<Tagged>, x: seq<Tagged>, y: seq<Tagged>, y': seq<Tagged>)
    requires Kept(calm, y) == Kept(calm, y')
    ensures Kept(calm, a + (b + (x + y'))) == Kept(calm, a + (b + (x + y)))
  {
    hide Kept;
    KeptAppend(calm, a, b + (x + y));
    KeptAppend(calm, a, b + (x + y'));
    KeptAppend(calm, b, x + y);
    KeptAppend(calm, b, x + y');
    KeptAppend(calm, x, y);
    KeptAppend(calm, x, y');
  }

  // ---- queueing --------------------------------------------------------------------------------

  lemma OfferKeeps(c: Config, s: Sys)
    requires Inv(c, s) && Enabled(c, s, DoOffer)
    ensures Inv(c, Apply(c, s, DoOffer))
  {
    hide Traced, StageInv, Balanced, Waiting, Absorb, InFlight, Tag, ParseAll;
    var s' := Apply(c, s, DoOffer);
    var item := s.pending.value;
    var p := item.qos.priority;
    if RxSpec.Offer(s.rx, item, c.size).1 {
      WaitingAppend(s.rx.lanes[p], item);
      assert LaneInv(c, s, p);
      assert Ahead(c, s', p) == Ahead(c, s, p) by {
        assert PendingOf(s', p) == [];
        assert PendingOf(s, p) == Tag(ParseAll(item.rest), item.qos);
      }
      hide Ahead;
      BalanceMoves(c, s, s', p);
      OneLane(c, s, s', p);
    }
  }

  /** A step that may declare congestion, on all lanes at once. */
  lemma AllLanes(c: Config, s: Sys, s': Sys)
    requires Inv(c, s) && Shaped(s') && Sorted(s'.rx) && !s'.calm && s'.tx == s.tx && s'.pushed == s.pushed &&
             s'.delivered == s.delivered
    requires forall p: Priority :: Kept(false, Ahead(c, s', p)) == Kept(false, Ahead(c, s, p))
    ensures Inv(c, s')
  {
    hide Traced, StageInv, Balanced, Ahead, Sorted, NoCongestion, Kept;
    forall p: Priority ensures LaneInv(c, s', p) {
      assert LaneInv(c, s, p);
      KeptAppend(false, s.delivered[p], Ahead(c, s, p));
      KeptAppend(false, s.delivered[p], Ahead(c, s', p));
      BalanceMoves(c, s, s', p);
    }
  }

  lemma DiscardKeeps(c: Config, s: Sys)
    requires Inv(c, s) && Enabled(c, s, Discard)
    ensures Inv(c, Apply(c, s, Discard))
  {
    var s' := Apply(c, s, Discard);
    forall p: Priority ensures Kept(false, Ahead(c, s', p)) == Kept(false, Ahead(c, s, p)) {
      NothingPending(s', p);
      PendingDroppable(s, p);
      hide PendingOf, Waiting, Absorb, InFlight, BufsOf, Blocking;
      DropMiddle(Waiting(s.rx.lanes[p]), PendingOf(s, p), Absorb(BufsOf(s.rx, p), InFlight(s.tx[p], s.sent[p]), c.cap));
    }
    hide LaneInv, Ahead, Kept, Sorted;
    AllLanes(c, s, s');
  }

  lemma PendingDroppable(s: Sys, p: Priority)
    requires s.pending.Some? && s.pending.value.qos.cc.Drop?
    ensures Blocking(PendingOf(s, p)) == []
  {
    hide ParseAll, Tag;
    DroppableTag(ParseAll(s.pending.value.rest), s.pending.value.qos);
  }

  lemma DropMiddle(a: seq<Tagged>, b: seq<Tagged>, c: seq<Tagged>)
    requires Blocking(b) == []
    ensures Blocking(a + ([] + c)) == Blocking(a + (b + c))
  {
    hide Blocking;
    BlockingAppend(a, [] + c);
    BlockingAppend(a, b + c);
    BlockingAppend(b, c);
    assert [] + c == c;
  }

  lemma CongestKeeps(c: Config, s: Sys, p: Priority)
    requires Inv(c, s)
    ensures Inv(c, Apply(c, s, Congest(p)))
  {
    var s' := Apply(c, s, Congest(p));
    forall q: Priority ensures Ahead(c, s', q) == Ahead(c, s, q) {
      hide Waiting, Absorb, InFlight, Tag, ParseAll;
      assert PendingOf(s', q) == PendingOf(s, q);
      assert BufsOf(s'.rx, q) == BufsOf(s.rx, q);
    }
    hide LaneInv, Ahead, Kept;
    AllLanes(c, s, s');
  }

  // ---- delivery --------------------------------------------------------------------------------

  /** One call takes what it returns off the front of its lane, congested or not. */
  lemma PullKept(rx: Rx, calm: bool)
    requires RxSpec.Shape(rx) && Sorted(rx) && (calm ==> NoCongestion(rx))
    ensures var (rx', r) := TryPull(rx);
            && RxSpec.Shape(rx') && Sorted(rx') && (calm ==> NoCongestion(rx'))
            && rx'.block == rx.block && rx'.drop == rx.drop
            && forall p: Priority ::
                 Kept(calm, Waiting(rx.lanes[p])) == Kept(calm, Got(r, p)) + Kept(calm, Waiting(rx'.lanes[p]))
  {
    hide TryPull, Waiting, Blocking, Sorted, NoCongestion;
    var (rx', r) := TryPull(rx);
    if calm {
      PullDelivers(rx);
      forall p: Priority ensures Waiting(rx.lanes[p]) == Got(r, p) + Waiting(rx'.lanes[p]) {
        assert r.None? ==> Waiting(rx.lanes[p]) == [];
      }
    } else {
      PullKeepsBlocking(rx);
      forall p: Priority
        ensures Blocking(Waiting(rx.lanes[p])) == Blocking(Got(r, p)) + Blocking(Waiting(rx'.lanes[p]))
      {
        assert Owed(rx, p) == Blocking(Got(r, p)) + Owed(rx', p);
      }
    }
  }

  lemma TakeFront(calm: bool, done: seq<Tagged>, w: seq<Tagged>, got: seq<Tagged>, w': seq<Tagged>, rest: seq<Tagged>)
    requires Kept(calm, w) == Kept(calm, got) + Kept(calm, w')
    ensures Kept(calm, (done + got) + (w' + rest)) == Kept(calm, done + (w + rest))
  {
    hide Kept;
    KeptAppend(calm, done + got, w' + rest);
    KeptAppend(calm, done, got);
    KeptAppend(calm, w', rest);
    KeptAppend(calm, done, w + rest);
    KeptAppend(calm, w, rest);
  }

  lemma PullKeeps(c: Config, s: Sys)
    requires Inv(c, s)
    ensures Inv(c, Apply(c, s, Pull))
  {
    hide Traced, StageInv, Balanced, Waiting, Absorb, InFlight, Sorted, NoCongestion, Kept, TryPull, PendingOf;
    var s' := Apply(c, s, Pull);
    var r := TryPull(s.rx).1;
    PullKept(s.rx, s.calm);
    forall p: Priority ensures LaneInv(c, s', p) {
      assert LaneInv(c, s, p);
      assert s'.delivered[p] == s.delivered[p] + Got(r, p);
      var rest := PendingOf(s, p) + Absorb(BufsOf(s.rx, p), InFlight(s.tx[p], s.sent[p]), c.cap);
      assert PendingOf(s', p) == PendingOf(s, p) by { SamePending(s, s', p); }
      TakeFront(s.calm, s.delivered[p], Waiting(s.rx.lanes[p]), Got(r, p), Waiting(s'.rx.lanes[p]), rest);
      assert Ahead(c, s', p) == Waiting(s'.rx.lanes[p]) + rest;
      hide Ahead;
      BalanceMoves(c, s, s', p);
    }
  }

  lemma SamePending(s: Sys, s': Sys, p: Priority)
    requires s'.pending == s.pending
    ensures PendingOf(s', p) == PendingOf(s, p)
  {}

  // ---- every run -------------------------------------------------------------------------------

  lemma InitInv(c: Config)
    ensures Inv(c, INIT_SYS)
  {
    hide LaneInv;
    forall p: Priority ensures LaneInv(c, INIT_SYS, p) {
      InitLane(c, INIT_SYS, p);
    }
  }

  lemma InitLane(c: Config, s: Sys, p: Priority)
    requires Shaped(s) && s.tx[p] == INIT_STAGE && s.sent[p] == 0 && s.rx.lanes[p] == [] && s.pending.None?
    requires s.pushed[p] == [] && s.delivered[p] == []
    ensures LaneInv(c, s, p)
  {
    EmptyStage(c.bs, p);
    EmptyTraced();
    assert Waiting(s.rx.lanes[p]) == [] && PendingOf(s, p) == [] && InFlight(s.tx[p], s.sent[p]) == [];
    AbsorbNone(BufsOf(s.rx, p), c.cap);
    hide Traced, StageInv, Waiting, PendingOf, InFlight, Absorb;
    assert s.delivered[p] + Ahead(c, s, p) == [];
  }

  lemma EmptyTraced()
    ensures Traced(INIT_STAGE)
  {
    Loss.EmptyStream();
    assert Loss.Sound(INIT_STAGE, {});
  }

  lemma EmptyStage(bs: BatchSize, p: Priority)
    ensures StageInv(bs, p, INIT_STAGE)
  {}

  lemma StepKeeps(c: Config, s: Sys, a: Action)
    requires Inv(c, s) && Enabled(c, s, a)
    ensures Inv(c, Apply(c, s, a))
  {
    hide *;
    match a
    case DoPush(p, m, cc, express, env) => PushKeeps(c, s, p, m, cc, express, env);
    case Flush(p) => FlushKeeps(c, s, p);
    case Arrive(p) => ArriveKeeps(c, s, p);
    case Shed(p) => ShedKeeps(c, s, p);
    case DoOffer => OfferKeeps(c, s);
    case Discard => DiscardKeeps(c, s);
    case Congest(p) => CongestKeeps(c, s, p);
    case Pull => PullKeeps(c, s);
  }

  /** The states a run passes through. */
  ghost predicate IsRun(c: Config, states: seq<Sys>, acts: seq<Action>)
  {
    && |states| == |acts| + 1 && states[0] == INIT_SYS
    && forall i :: 0 <= i < |acts| ==>
       Shaped(states[i]) && Enabled(c, states[i], acts[i]) && states[i + 1] == Apply(c, states[i], acts[i])
  }

  lemma {:induction false} RunKeeps(c: Config, states: seq<Sys>, acts: seq<Action>, n: nat)
    requires IsRun(c, states, acts) && n <= |acts|
    ensures Inv(c, states[n])
  {
    hide Inv, Apply, Enabled;
    if n == 0 {
      InitInv(c);
    } else {
      RunKeeps(c, states, acts, n - 1);
      StepKeeps(c, states[n - 1], acts[n - 1]);
    }
  }

  /** End to end, after any run: of every priority, what was delivered is a prefix of what was pushed, with the same
      bytes, priority and congestion control: of all messages while there was no congestion, of the Block messages
      always. */
  lemma DeliveredIsPrefix(c: Config, states: seq<Sys>, acts: seq<Action>, n: nat, p: Priority)
    requires IsRun(c, states, acts) && n <= |acts|
    ensures var s := states[n];
            && Shaped(s)
            && Kept(s.calm, Plain(s.delivered[p])) <= Kept(s.calm, s.pushed[p])
            && forall i :: 0 <= i < |s.delivered[p]| ==> s.delivered[p][i].1.priority == p
  {
    RunKeeps(c, states, acts, n);
    var s := states[n];
    assert LaneInv(c, s, p);
    hide Traced, Ahead, Kept, Plain, StageInv;
    PlainAppend(s.delivered[p], Ahead(c, s, p));
    KeptAppend(s.calm, Plain(s.delivered[p]), Plain(Ahead(c, s, p)));
  }

  /** Nothing of priority p is left anywhere. */
  predicate Drained(s: Sys, p: Priority)
    requires Shaped(s)
  {
    s.tx[p].open.None? && s.sent[p] == |s.tx[p].out| && s.pending.None? && s.rx.lanes[p] == []
  }

  /** And once the priority has drained, everything pushed was delivered. */
  lemma DrainedIsDelivered(c: Config, states: seq<Sys>, acts: seq<Action>, n: nat, p: Priority)
    requires IsRun(c, states, acts) && n <= |acts| && Shaped(states[n]) && Drained(states[n], p)
    ensures var s := states[n]; Kept(s.calm, Plain(s.delivered[p])) == Kept(s.calm, s.pushed[p])
  {
    RunKeeps(c, states, acts, n);
    var s := states[n];
    assert LaneInv(c, s, p);
    assert Ahead(c, s, p) == [];
    hide Ahead, Kept, Plain;
    assert s.delivered[p] + [] == s.delivered[p];
  }
}
