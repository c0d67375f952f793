/** Soundness of reassembly when the link loses batches: whatever part of a sender's stream arrives, every
    message handed on is one message that was sent, whole. Fragments of different or aborted messages are never
    put together. */
module Loss {
  import opened Base
  import opened Codec
  import opened TxSpec
  import RxSpec

  // ---- the stream one priority sends -----------------------------------------------------------

  predicate Continues(b: Batch)
  {
    b.FragBatch? && !b.kind.First?
  }

  /** The payloads from the first fragment of a message up to batch k. */
  function Upto(out: seq<Batch>, k: nat): seq<byte>
    requires k < |out|
  {
    if out[k].FrameBatch? then []
    else (if k > 0 && Continues(out[k]) then Upto(out, k - 1) else []) + out[k].payload
  }

  /** Batch b directly continues batch a. */
  predicate Follows(a: Batch, b: Batch)
  {
    a.FragBatch? && b.FragBatch? && !a.kind.Last? && a.qos == b.qos && a.fragId == b.fragId &&
        b.seqNum == NextSeq(a.seqNum)
  }

  predicate Linked(out: seq<Batch>)
  {
    forall k :: 0 <= k < |out| && Continues(out[k]) ==> k > 0 && Follows(out[k - 1], out[k])
  }

  function Count(out: seq<Batch>, cc: CongestionControl): nat
  {
    if out == [] then 0 else Count(out[..|out| - 1], cc) + if out[|out| - 1].qos.cc == cc then 1 else 0
  }

  /** Each congestion class counts its batches from one, modulo 2^28. */
  predicate Numbered(out: seq<Batch>)
  {
    forall k :: 0 <= k < |out| ==> NumberedAt(out, k)
  }

  predicate NumberedAt(out: seq<Batch>, k: nat)
    requires k < |out|
  {
    out[k].seqNum == SeqPlus(0, Count(out[..k + 1], out[k].qos.cc))
  }

  /** The messages given to `push`, each with its congestion class. */
  type Log = set<(Msg, CongestionControl)>

  /** A frame holds logged messages only; a last fragment completes one. */
  ghost predicate Whole(out: seq<Batch>, k: nat, log: Log)
    requires k < |out|
  {
    && (out[k].FrameBatch? ==> forall m :: m in out[k].msgs ==> (m, out[k].qos.cc) in log)
    && (out[k].FragBatch? && out[k].kind.Last? ==> IsSent(Upto(out, k), out[k].qos.cc, log))
  }

  ghost predicate IsSent(data: seq<byte>, cc: CongestionControl, log: Log)
  {
    exists m :: (m, cc) in log && data == EncodeMsg(m)
  }

  ghost predicate Stream(out: seq<Batch>, log: Log)
  {
    Linked(out) && Numbered(out) && forall k :: 0 <= k < |out| ==> Whole(out, k, log)
  }

  // ---- every run of pushes makes such a stream -------------------------------------------------

  lemma {:induction false} UptoPrefix(out: seq<Batch>, more: seq<Batch>, k: nat)
    requires k < |out|
    ensures Upto(out + more, k) == Upto(out, k)
  {
    if k > 0 {
      UptoPrefix(out, more, k - 1);
    }
  }

  lemma CountPush(out: seq<Batch>, b: Batch, cc: CongestionControl)
    ensures Count(out + [b], cc) == Count(out, cc) + if b.qos.cc == cc then 1 else 0
  {
    assert (out + [b])[..|out + [b]| - 1] == out;
  }

  lemma LinkedPush(out: seq<Batch>, b: Batch)
    requires Linked(out)
    requires Continues(b) ==> out != [] && Follows(out[|out| - 1], b)
    ensures Linked(out + [b])
  {
    hide Follows;
    var all := out + [b];
    forall k | 0 <= k < |all| && Continues(all[k]) ensures k > 0 && Follows(all[k - 1], all[k]) {
      if k < |out| {
        assert all[k] == out[k];
      }
    }
  }

  lemma NumberedPush(out: seq<Batch>, b: Batch)
    requires Numbered(out) && b.seqNum == SeqPlus(0, Count(out, b.qos.cc) + 1)
    ensures Numbered(out + [b])
  {
    var all := out + [b];
    NumberedLast(out, b);
    hide NumberedAt, Count, SeqPlus;
    forall k | 0 <= k < |all| ensures NumberedAt(all, k) {
      if k < |out| {
        assert NumberedAt(out, k);
        NumberedPrefix(out, b, k);
      }
    }
  }

  lemma NumberedLast(out: seq<Batch>, b: Batch)
    requires b.seqNum == SeqPlus(0, Count(out, b.qos.cc) + 1)
    ensures NumberedAt(out + [b], |out|)
  {
    CountPush(out, b, b.qos.cc);
    hide Count, SeqPlus;
    assert (out + [b])[..|out| + 1] == out + [b];
  }

  lemma NumberedPrefix(out: seq<Batch>, b: Batch, k: nat)
    requires k < |out| && NumberedAt(out, k)
    ensures NumberedAt(out + [b], k)
  {
    hide SeqPlus, Count;
    assert (out + [b])[..k + 1] == out[..k + 1];
  }

  /** One more batch. */
  lemma StreamPush(out: seq<Batch>, b: Batch, log: Log)
    requires Stream(out, log) && b.seqNum == SeqPlus(0, Count(out, b.qos.cc) + 1)
    requires Continues(b) ==> out != [] && Follows(out[|out| - 1], b)
    requires b.FrameBatch? ==> forall m :: m in b.msgs ==> (m, b.qos.cc) in log
    requires b.FragBatch? && b.kind.Last? ==> IsSent(Upto(out + [b], |out|), b.qos.cc, log)
    ensures Stream(out + [b], log)
  {
    LinkedPush(out, b);
    NumberedPush(out, b);
    assert Whole(out + [b], |out|, log) by { hide Linked, Numbered, SeqPlus, Follows, IsSent, Upto, Count; }
    forall k | 0 <= k < |out| ensures Whole(out + [b], k, log) {
      WholePrefix(out, b, k, log);
    }
    hide Linked, Numbered, SeqPlus, Follows, Whole, Count;
  }

  lemma WholePrefix(out: seq<Batch>, b: Batch, k: nat, log: Log)
    requires k < |out| && Whole(out, k, log)
    ensures Whole(out + [b], k, log)
  {
    hide IsSent, Upto;
    UptoPrefix(out, [b], k);
  }

  /** What holds whenever a priority's lock is free: its stream, its counters, its booked frame. */
  ghost predicate Sound(st: Stage, log: Log)
  {
    && Stream(st.out, log)
    && (forall cc ::
          SeqOf(st, cc) == SeqPlus(0, Count(st.out, cc) + if st.open.Some? && st.open.value.qos.cc == cc then 1 else 0))
    && (st.open.Some? ==>
          && st.open.value.FrameBatch? && st.open.value.seqNum == SeqOf(st, st.open.value.qos.cc)
          && forall m :: m in st.open.value.msgs ==> (m, st.open.value.qos.cc) in log)
  }

  lemma CommitSound(st: Stage, log: Log)
    requires Sound(st, log)
    ensures Sound(Commit(st), log)
  {
    hide Stream, SeqPlus;
    if st.open.Some? {
      var b := st.open.value;
      StreamPush(st.out, b, log);
      CountPush(st.out, b, Block);
      CountPush(st.out, b, Drop);
    }
  }

  lemma {:induction false} PayloadsPush(l: seq<Batch>, b: Batch)
    requires b.FragBatch? && forall i :: 0 <= i < |l| ==> l[i].FragBatch?
    ensures Payloads(l + [b]) == Payloads(l) + b.payload
  {
    if l == [] {
      assert l + [b] == [b] && Payloads([b]) == b.payload + Payloads([]);
    } else {
      assert (l + [b])[1..] == l[1..] + [b];
      PayloadsPush(l[1..], b);
    }
  }

  /** All the fragments of one message. */
  predicate AreFragments(l: seq<Batch>, qos: QoS, s: SeqNum, id: SeqNum)
    ensures AreFragments(l, qos, s, id) ==> forall i :: 0 <= i < |l| ==> l[i].FragBatch?
  {
    forall i :: 0 <= i < |l| ==> l[i].FragBatch? && FragAt(l[i], qos, s, id, true, i, |l|)
  }

  /** Fragment k of a message ends the payloads of the first k + 1. */
  lemma {:induction false} UptoFragments(out: seq<Batch>, l: seq<Batch>, qos: QoS, s: SeqNum, id: SeqNum, k: nat)
    requires k < |l| && AreFragments(l, qos, s, id)
    ensures Upto(out + l[..k + 1], |out| + k) == Payloads(l[..k + 1])
  {
    hide *;
    FragmentLinks(l, qos, s, id, k);
    CutStep(out, l, k);
    if k > 0 {
      UptoFragments(out, l, qos, s, id, k - 1);
    }
    UptoStep(out, l[..k], l[k]);
  }

  lemma UptoStep(out: seq<Batch>, l: seq<Batch>, b: Batch)
    requires b.FragBatch? && (forall i :: 0 <= i < |l| ==> l[i].FragBatch?) && (l != [] <==> Continues(b))
    requires l != [] ==> Upto(out + l, |out| + |l| - 1) == Payloads(l)
    ensures Upto(out + l + [b], |out| + |l|) == Payloads(l + [b])
  {
    hide *;
    PayloadsPush(l, b);
    UptoPush(out + l, b);
    PayloadsNone();
  }

  lemma PayloadsNone()
    ensures Payloads([]) == []
  {}

  lemma UptoPush(out: seq<Batch>, b: Batch)
    requires b.FragBatch?
    ensures Upto(out + [b], |out|) == (if out != [] && Continues(b) then Upto(out, |out| - 1) else []) + b.payload
  {
    if out != [] {
      UptoPrefix(out, [b], |out| - 1);
    }
  }

  lemma {:induction false} FragmentsSound(st: Stage, log: Log, l: seq<Batch>, qos: QoS, id: SeqNum, k: nat, m: Msg)
    requires Sound(st, log) && st.open.None? && 1 <= k <= |l| && (m, qos.cc) in log
    requires AreFragments(l, qos, NextSeq(SeqOf(st, qos.cc)), id) && Payloads(l) == EncodeMsg(m)
    ensures Sound(AfterFragments(st, qos.cc, id, l, k), log)
  {
    hide Sound, Payloads, EncodeMsg, AreFragments, NextSeq, FragAt;
    var s := NextSeq(SeqOf(st, qos.cc));
    if k == 1 {
      assert st.out + l[..0] == st.out;
      NextFragment(st, st.out, log, l, qos, s, id, 0, m);
    } else {
      FragmentsSound(st, log, l, qos, id, k - 1, m);
      NextFragment(AfterFragments(st, qos.cc, id, l, k - 1), st.out, log, l, qos, s, id, k - 1, m);
    }
  }

  /** Fragment k of a message after its predecessors. */
  lemma NextFragment(st: Stage, out: seq<Batch>, log: Log, l: seq<Batch>, qos: QoS, s: SeqNum, id: SeqNum, k: nat,
      m: Msg)
    requires Sound(st, log) && st.open.None? && k < |l| && (m, qos.cc) in log && st.out == out + l[..k]
    requires AreFragments(l, qos, s, id) && Payloads(l) == EncodeMsg(m)
    requires if k == 0 then NextSeq(SeqOf(st, qos.cc)) == s else SeqOf(st, qos.cc) == l[k - 1].seqNum
    ensures Sound(SetSeq(st, qos.cc, l[k].seqNum).(fragId := id, out := out + l[..k + 1]), log)
  {
    FragmentLinks(l, qos, s, id, k);
    LastCompletes(out, l, qos, s, id, k, m, log);
    CutStep(out, l, k);
    hide *;
    AddSound(st, l[k], SetSeq(st, qos.cc, l[k].seqNum).(fragId := id, out := out + l[..k + 1]), log);
  }

  lemma LastCompletes(out: seq<Batch>, l: seq<Batch>, qos: QoS, s: SeqNum, id: SeqNum, k: nat, m: Msg, log: Log)
    requires AreFragments(l, qos, s, id) && Payloads(l) == EncodeMsg(m) && k < |l| && (m, qos.cc) in log
    ensures l[k].kind.Last? ==> IsSent(Upto(out + l[..k] + [l[k]], |out + l[..k]|), qos.cc, log)
  {
    if l[k].kind.Last? {
      FragmentLinks(l, qos, s, id, k);
      CutStep(out, l, k);
      UptoFragments(out, l, qos, s, id, k);
      Sent(m, qos.cc, log);
      assert l[..|l|] == l;
      hide *;
    }
  }

  /** How a fragment follows its predecessor. */
  lemma FragmentLinks(l: seq<Batch>, qos: QoS, s: SeqNum, id: SeqNum, k: nat)
    requires AreFragments(l, qos, s, id) && k < |l|
    ensures l[k].FragBatch? && l[k].qos == qos && l[k].fragId == id && (l[k].kind.Last? ==> k + 1 == |l|)
    ensures if k == 0 then !Continues(l[k]) && l[k].seqNum == s
            else Continues(l[k]) && Follows(l[k - 1], l[k]) && l[k].seqNum == NextSeq(l[k - 1].seqNum)
  {
    hide SeqPlus, NextSeq;
    SeqPlusNext(s, k);
    assert FragAt(l[k], qos, s, id, true, k, |l|);
    assert k > 0 ==> FragAt(l[k - 1], qos, s, id, true, k - 1, |l|);
  }

  lemma CutStep(out: seq<Batch>, l: seq<Batch>, k: nat)
    requires k < |l|
    ensures |out + l[..k]| == |out| + k && l[..k + 1] == l[..k] + [l[k]]
    ensures out + l[..k + 1] == out + l[..k] + [l[k]]
    ensures k > 0 ==> (out + l[..k])[|out| + k - 1] == l[k - 1]
  {}

  lemma Sent(m: Msg, cc: CongestionControl, log: Log)
    requires (m, cc) in log
    ensures IsSent(EncodeMsg(m), cc, log)
  {}

  lemma SeqPlusNext(s: SeqNum, i: nat)
    ensures SeqPlus(s, 0) == s && (i > 0 ==> SeqPlus(s, i) == NextSeq(SeqPlus(s, i - 1)))
  {}

  /** One more batch committed outside the booked frame. */
  lemma AddSound(st: Stage, b: Batch, st': Stage, log: Log)
    requires Sound(st, log) && st.open.None? && b.FragBatch? && b.seqNum == NextSeq(SeqOf(st, b.qos.cc))
    requires Continues(b) ==> st.out != [] && Follows(st.out[|st.out| - 1], b)
    requires b.kind.Last? ==> IsSent(Upto(st.out + [b], |st.out|), b.qos.cc, log)
    requires st' == SetSeq(st, b.qos.cc, b.seqNum).(fragId := b.fragId, out := st.out + [b])
    ensures Sound(st', log)
  {
    hide Stream, Upto, Follows, IsSent, Count;
    StreamPush(st.out, b, log);
    CountPush(st.out, b, Block);
    CountPush(st.out, b, Drop);
  }

  lemma StreamMore(out: seq<Batch>, log: Log, x: (Msg, CongestionControl))
    requires Stream(out, log)
    ensures Stream(out, log + {x})
  {
    hide Linked, Numbered, EncodeMsg, Upto;
    forall k | 0 <= k < |out| ensures Whole(out, k, log + {x}) {
      assert Whole(out, k, log);
    }
  }

  lemma SoundMore(st: Stage, log: Log, x: (Msg, CongestionControl))
    requires Sound(st, log)
    ensures Sound(st, log + {x})
  {
    hide Stream, SeqPlus, Count;
    StreamMore(st.out, log, x);
  }

  lemma FragmentsAre(bs: BatchSize, qos: QoS, s: SeqNum, id: SeqNum, m: Msg)
    requires !Fits(bs, FrameBatch(qos, s, [m]))
    ensures AreFragments(FragmentsOf(bs, qos, s, id, m), qos, s, id) &&
            Payloads(FragmentsOf(bs, qos, s, id, m)) == EncodeMsg(m)
  {
    hide Wire, EncodeMsg, Payloads, FragmentsOf, SeqPlus;
    FragmentShape(bs, qos, s, id, m);
    hide FragAt;
  }

  lemma PushFreshSound(bs: BatchSize, st: Stage, log: Log, m: Msg, qos: QoS, env: Env)
    requires Sound(st, log) && st.open.None? && (m, qos.cc) in log
    ensures Sound(PushFresh(bs, st, m, qos, env).0, log)
  {
    var s, id := NextSeq(SeqOf(st, qos.cc)), NextSeq(st.fragId);
    if env.grants > 0 {
      if Fits(bs, FrameBatch(qos, s, [m])) {
        BookedSound(st, log, m, qos);
      } else {
        var l := FragmentsOf(bs, qos, s, id, m);
        FragmentsAre(bs, qos, s, id, m);
        hide Sound, AreFragments, FragmentsOf, Fits, EncodeMsg, Payloads, AfterFragments, NextSeq;
        FragmentsSound(st, log, l, qos, id, Committed(|l|, env.grants - 1, env.notifies), m);
      }
    }
  }

  /** A fresh frame is booked, and perhaps committed at once. */
  lemma BookedSound(st: Stage, log: Log, m: Msg, qos: QoS)
    requires Sound(st, log) && st.open.None? && (m, qos.cc) in log
    ensures var s := NextSeq(SeqOf(st, qos.cc));
            var st' := SetSeq(st, qos.cc, s).(open := Some(FrameBatch(qos, s, [m])));
            Sound(st', log) && Sound(Commit(st'), log)
  {
    hide Stream, Count;
    var s := NextSeq(SeqOf(st, qos.cc));
    var st' := SetSeq(st, qos.cc, s).(open := Some(FrameBatch(qos, s, [m])));
    assert Sound(st', log);
    CommitSound(st', log);
  }

  lemma PushSound(bs: BatchSize, st: Stage, log: Log, m: Msg, qos: QoS, env: Env)
    requires Sound(st, log) && (m, qos.cc) in log
    ensures Sound(Push(bs, st, m, qos, env).0, log)
  {
    hide Stream, Fits, PushFresh, Count, SeqPlus;
    CommitSound(st, log);
    if st.open.None? {
      PushFreshSound(bs, st, log, m, qos, env);
    } else if st.open.value.qos.cc == qos.cc && Fits(bs, Append(st.open.value, m)) {
      var st' := st.(open := Some(Append(st.open.value, m)));
      assert Sound(st', log);
      CommitSound(st', log);
    } else if env.notifies > 0 {
      PushFreshSound(bs, Commit(st), log, m, qos, env.(notifies := env.notifies - 1));
    }
  }

  /** What a sender can ask of one priority. */
  datatype Op = OpPush(m: Msg, cc: CongestionControl, express: bool, env: Env) | OpFlush

  function RunOps(bs: BatchSize, p: Priority, ops: seq<Op>): Stage
  {
    if ops == [] then INIT_STAGE
    else
      var st := RunOps(bs, p, ops[..|ops| - 1]);
      match ops[|ops| - 1]
      case OpPush(m, cc, express, env) => Push(bs, st, m, QoS(p, cc, express), env).0
      case OpFlush => Commit(st)
  }

  function LogOf(ops: seq<Op>): Log
  {
    if ops == [] then {}
    else
      LogOf(ops[..|ops| - 1]) + match ops[|ops| - 1] case OpPush(m, cc, _, _) => {(m, cc)} case OpFlush => {}
  }

  /** Whatever is pushed, and however pushes fail or are cut short, the committed batches form a sound stream. */
  lemma {:induction false} RunSound(bs: BatchSize, p: Priority, ops: seq<Op>)
    ensures Sound(RunOps(bs, p, ops), LogOf(ops))
  {
    hide Push, Stream, Commit;
    if ops == [] {
      EmptyStream();
    } else {
      var front := ops[..|ops| - 1];
      RunSound(bs, p, front);
      var st := RunOps(bs, p, front);
      hide Sound;
      match ops[|ops| - 1]
      case OpPush(m, cc, express, env) =>
        SoundMore(st, LogOf(front), (m, cc));
        PushSound(bs, st, LogOf(front) + {(m, cc)}, m, QoS(p, cc, express), env);
      case OpFlush =>
        CommitSound(st, LogOf(front));
        assert LogOf(ops) == LogOf(front);
    }
  }

  lemma EmptyStream()
    ensures Stream([], {})
  {}

  /** And every one of its batches carries the priority. */
  lemma {:induction false} RunPriority(bs: BatchSize, p: Priority, ops: seq<Op>)
    ensures StageInv(bs, p, RunOps(bs, p, ops))
  {
    hide Push, Wire;
    if ops != [] {
      var front := ops[..|ops| - 1];
      RunPriority(bs, p, front);
      var st := RunOps(bs, p, front);
      match ops[|ops| - 1]
      case OpPush(m, cc, express, env) =>
        hide StageInv;
        PushKeepsInv(bs, p, st, m, QoS(p, cc, express), env);
      case OpFlush =>
        CommitKeepsInv(bs, p, st);
    }
  }

  // ---- numbers do not repeat -------------------------------------------------------------------

  /** No two fragments of a class share both numbers, and no continuation carries the initial ones. */
  ghost predicate Distinct(out: seq<Batch>)
  {
    && (forall j, k :: 0 <= j < k < |out| ==> !Confusable(out[j], out[k]))
    && (forall k :: 0 <= k < |out| && Continues(out[k]) ==> out[k].seqNum != 0 || out[k].fragId != 0)
  }

  predicate Confusable(a: Batch, b: Batch)
  {
    a.FragBatch? && b.FragBatch? && a.qos.cc == b.qos.cc && a.seqNum == b.seqNum && a.fragId == b.fragId
  }

  lemma {:induction false} CountGrows(out: seq<Batch>, j: nat, k: nat, cc: CongestionControl)
    requires j <= k <= |out|
    ensures Count(out[..j], cc) <= Count(out[..k], cc)
    ensures j < k && out[k - 1].qos.cc == cc ==> Count(out[..j], cc) < Count(out[..k], cc)
    decreases k
  {
    if j < k {
      assert out[..k][..k - 1] == out[..k - 1];
      CountGrows(out, j, k - 1, cc);
    }
  }

  /** Fewer than 2^28 batches of each class are enough. */
  lemma ShortStreamsAreDistinct(out: seq<Batch>)
    requires Numbered(out) && Count(out, Block) < SEQ_MOD && Count(out, Drop) < SEQ_MOD
    ensures Distinct(out)
  {
    hide Count, Numbered;
    assert forall cc :: Count(out, cc) < SEQ_MOD by {
      forall cc ensures Count(out, cc) < SEQ_MOD {
        assert cc.Block? || cc.Drop?;
      }
    }
    forall k | 0 <= k < |out| ensures out[k].seqNum != 0 {
      NumberAt(out, k);
    }
    forall j, k | 0 <= j < k < |out| ensures !Confusable(out[j], out[k]) {
      NumberAt(out, j);
      NumberAt(out, k);
      CountGrows(out, j + 1, k + 1, out[k].qos.cc);
    }
  }

  lemma NumberAt(out: seq<Batch>, k: nat)
    requires Numbered(out) && k < |out| && Count(out, out[k].qos.cc) < SEQ_MOD
    ensures out[k].seqNum == Count(out[..k + 1], out[k].qos.cc) > 0
  {
    assert NumberedAt(out, k);
    hide Count, Numbered, SeqPlus;
    var cc := out[k].qos.cc;
    CountAll(out, k + 1, cc);
    CountGrows(out, k, k + 1, cc);
    SmallSeq(Count(out[..k + 1], cc));
  }

  lemma CountAll(out: seq<Batch>, k: nat, cc: CongestionControl)
    requires k <= |out|
    ensures Count(out[..k], cc) <= Count(out, cc)
  {
    CountGrows(out, k, |out|, cc);
    hide Count;
    assert out[..|out|] == out;
  }

  lemma SmallSeq(n: nat)
    requires n < SEQ_MOD
    ensures SeqPlus(0, n) == n
  {}

  // ---- reassembly of whatever arrives ----------------------------------------------------------

  /** Batch k is the fragment a reassembly buffer of class cc would take next. */
  predicate Expected(d: RxSpec.Defrag, cc: CongestionControl, b: Batch)
  {
    Continues(b) && b.qos.cc == cc && b.seqNum == d.seqNum && b.fragId == d.fragId
  }

  /** The buffer waits for batch n of the stream or for none of the rest; if for n, it holds what precedes n. */
  ghost predicate Safe(out: seq<Batch>, d: RxSpec.Defrag, cc: CongestionControl, n: nat)
  {
    forall k :: n <= k < |out| && Expected(d, cc, out[k]) ==> k == n && d.buf + out[k].payload == Upto(out, k)
  }

  lemma SafeAtStart(out: seq<Batch>, cc: CongestionControl)
    requires Distinct(out)
    ensures Safe(out, RxSpec.NEW_DEFRAG, cc, 0)
  {
    hide Upto;
  }

  /** Passing over batches keeps the buffer safe. */
  lemma SafeSkip(out: seq<Batch>, d: RxSpec.Defrag, d': RxSpec.Defrag, cc: CongestionControl, n: nat, n': nat)
    requires Safe(out, d, cc, n) && n < n' && d'.seqNum == d.seqNum && d'.fragId == d.fragId
    ensures Safe(out, d', cc, n')
  {
    hide Upto;
    forall k | n' <= k < |out| ensures !Expected(d', cc, out[k]) {
      SameExpected(d, d', cc, out[k]);
    }
  }

  lemma SameExpected(d: RxSpec.Defrag, d': RxSpec.Defrag, cc: CongestionControl, b: Batch)
    requires d'.seqNum == d.seqNum && d'.fragId == d.fragId
    ensures Expected(d, cc, b) == Expected(d', cc, b)
  {}

  /** Taking fragment g. */
  lemma SafeTake(out: seq<Batch>, d: RxSpec.Defrag, cc: CongestionControl, g: nat)
    requires Linked(out) && Distinct(out) && g < |out| && out[g].FragBatch? && out[g].qos.cc == cc
    requires d.seqNum == NextSeq(out[g].seqNum) && d.fragId == out[g].fragId
    requires out[g].kind.Last? || d.buf == Upto(out, g)
    ensures Safe(out, d, cc, g + 1)
  {
    forall k | g < k < |out| && Expected(d, cc, out[k]) ensures k == g + 1 && d.buf + out[k].payload == Upto(out, k) {
      assert Follows(out[k - 1], out[k]);
      if k > g + 1 {
        assert Confusable(out[g], out[k - 1]);
        assert false;
      }
    }
  }

  /** Whatever fragment g >= n of the stream arrives next, the buffer stays safe, and a completed message is exactly the
      payloads of one message from its first fragment on. */
  lemma FragmentSafe(out: seq<Batch>, d: RxSpec.Defrag, cc: CongestionControl, n: nat, g: nat, cap: nat)
    requires Linked(out) && Distinct(out) && Safe(out, d, cc, n)
    requires n <= g < |out| && out[g].FragBatch? && out[g].qos.cc == cc
    ensures var b := out[g];
            var (d', a) := RxSpec.Fragment(d, b.qos, b.seqNum, b.kind, b.fragId, b.payload, cap);
            Safe(out, d', cc, g + 1) && (a.Queue? ==> b.kind.Last? && a.item == RxSpec.Item(b.qos, Upto(out, g)))
  {
    var b := out[g];
    var start := if b.kind.First? then RxSpec.Defrag(b.seqNum, b.fragId, []) else d;
    var (e, err) := RxSpec.Extend(start, b.seqNum, b.fragId, b.payload, cap);
    var d' := RxSpec.Fragment(d, b.qos, b.seqNum, b.kind, b.fragId, b.payload, cap).0;
    if err.None? {
      assert b.kind.First? || Expected(d, cc, b);
      assert e.buf == Upto(out, g);
      SafeTake(out, d', cc, g);
    } else if b.kind.First? {
      FirstRefused(out, d', cc, g);
    } else {
      SafeSkip(out, d, d', cc, n, g + 1);
    }
  }

  lemma FirstRefused(out: seq<Batch>, d: RxSpec.Defrag, cc: CongestionControl, g: nat)
    requires Distinct(out) && g < |out| && out[g].FragBatch? && out[g].qos.cc == cc
    requires d.seqNum == out[g].seqNum && d.fragId == out[g].fragId
    ensures Safe(out, d, cc, g + 1)
  {
    forall k | g < k < |out| ensures !Expected(d, cc, out[k]) {
      assert !Confusable(out[g], out[k]);
    }
  }

  // ---- the receiver ----------------------------------------------------------------------------

  /** What a committed batch looks like to the receiver. */
  lemma ReceiveWire(rx: RxSpec.Rx, b: Batch, cap: nat)
    requires RxSpec.Shape(rx)
    ensures RxSpec.Receive(rx, Wire(b), cap) ==
            match b
            case FrameBatch(qos, _, msgs) => (rx, RxSpec.Queue(RxSpec.Item(qos, EncodeMsgs(msgs))))
            case FragBatch(qos, s, kind, id, payload) =>
              var (d, a) := RxSpec.Fragment(RxSpec.DefragOf(rx, qos), qos, s, kind, id, payload, cap);
              (RxSpec.SetDefrag(rx, qos, d), a)
  {
    hide EncodeHeader, DecodeHeader, EncodeMsgs, RxSpec.Fragment;
    var body := if b.FrameBatch? then EncodeMsgs(b.msgs) else b.payload;
    HeaderRoundTrip(HeaderOf(b), body);
    assert Wire(b)[|EncodeHeader(HeaderOf(b))|..] == body;
  }

  /** Batch k of priority p's stream reaches the receiver. */
  datatype Arrival = Arrival(p: Priority, k: nat)

  /** The first batch of lane p that can still arrive. */
  function NextOf(arrivals: seq<Arrival>, p: Priority): nat
  {
    if arrivals == [] then 0
    else
      var last := arrivals[|arrivals| - 1];
      if last.p == p then last.k + 1 else NextOf(arrivals[..|arrivals| - 1], p)
  }

  /** Any part of every stream arrives, each stream in its own order, interleaved in any way. */
  predicate InOrder(outs: seq<seq<Batch>>, arrivals: seq<Arrival>)
    requires |outs| == 4
  {
    arrivals != [] ==>
      var front, last := arrivals[..|arrivals| - 1], arrivals[|arrivals| - 1];
      InOrder(outs, front) && NextOf(front, last.p) <= last.k < |outs[last.p]|
  }

  function Feed(outs: seq<seq<Batch>>, arrivals: seq<Arrival>, cap: nat): (rx: RxSpec.Rx)
    requires |outs| == 4 && InOrder(outs, arrivals)
    ensures RxSpec.Shape(rx)
  {
    if arrivals == [] then RxSpec.INIT_RX
    else
      var front, last := arrivals[..|arrivals| - 1], arrivals[|arrivals| - 1];
      RxSpec.Receive(Feed(outs, front, cap), Wire(outs[last.p][last.k]), cap).0
  }

  /** What the last arrival led to. */
  function Outcome(outs: seq<seq<Batch>>, arrivals: seq<Arrival>, cap: nat): RxSpec.Accept
    requires |outs| == 4 && InOrder(outs, arrivals) && arrivals != []
  {
    var front, last := arrivals[..|arrivals| - 1], arrivals[|arrivals| - 1];
    RxSpec.Receive(Feed(outs, front, cap), Wire(outs[last.p][last.k]), cap).1
  }

  ghost predicate SoundStreams(outs: seq<seq<Batch>>, logs: seq<Log>)
  {
    && |outs| == 4 && |logs| == 4
    && forall p: Priority :: SoundStream(outs[p], logs[p], p)
  }

  ghost predicate SoundStream(out: seq<Batch>, log: Log, p: Priority)
  {
    Stream(out, log) && Distinct(out) && forall k :: 0 <= k < |out| ==> out[k].qos.priority == p
  }

  ghost predicate AllSafe(outs: seq<seq<Batch>>, rx: RxSpec.Rx, arrivals: seq<Arrival>)
    requires |outs| == 4 && RxSpec.Shape(rx)
  {
    forall p: Priority ::
      Safe(outs[p], rx.block[p], Block, NextOf(arrivals, p)) && Safe(outs[p], rx.drop[p], Drop, NextOf(arrivals, p))
  }

  lemma NextOfLast(arrivals: seq<Arrival>)
    requires arrivals != []
    ensures var front, last := arrivals[..|arrivals| - 1], arrivals[|arrivals| - 1];
            && NextOf(arrivals, last.p) == last.k + 1
            && forall p: Priority :: p != last.p ==> NextOf(arrivals, p) == NextOf(front, p)
  {}

  /** What batch k of a stream can put into the queue. */
  ghost predicate Delivers(out: seq<Batch>, k: nat, a: RxSpec.Accept)
    requires k < |out|
  {
    a.Queue? ==>
      match out[k]
      case FrameBatch(qos, _, msgs) => a.item == RxSpec.Item(qos, EncodeMsgs(msgs))
      case FragBatch(qos, _, kind, _, _) => kind.Last? && a.item == RxSpec.Item(qos, Upto(out, k))
  }

  /** One arrival, on its own priority's buffers. */
  lemma ReceiveSafe(out: seq<Batch>, rx: RxSpec.Rx, p: Priority, n: nat, k: nat, cap: nat)
    requires Linked(out) && Distinct(out) && n <= k < |out| && RxSpec.Shape(rx) && out[k].qos.priority == p
    requires Safe(out, rx.block[p], Block, n) && Safe(out, rx.drop[p], Drop, n)
    ensures var (rx', a) := RxSpec.Receive(rx, Wire(out[k]), cap);
            && RxSpec.Shape(rx') && Delivers(out, k, a)
            && Safe(out, rx'.block[p], Block, k + 1) && Safe(out, rx'.drop[p], Drop, k + 1)
            && rx'.lanes == rx.lanes && rx'.congested == rx.congested
            && forall q: Priority :: q != p ==> rx'.block[q] == rx.block[q] && rx'.drop[q] == rx.drop[q]
  {
    var b := out[k];
    ReceiveWire(rx, b, cap);
    hide Wire, EncodeMsgs, Upto, Linked, Distinct, Safe, RxSpec.Receive, RxSpec.Fragment;
    if b.FragBatch? {
      FragmentSafe(out, RxSpec.DefragOf(rx, b.qos), b.qos.cc, n, k, cap);
    }
    SafeSkip(out, rx.block[p], rx.block[p], Block, n, k + 1);
    SafeSkip(out, rx.drop[p], rx.drop[p], Drop, n, k + 1);
  }

  lemma ArrivalSafe(outs: seq<seq<Batch>>, logs: seq<Log>, rx: RxSpec.Rx, arrivals: seq<Arrival>, cap: nat)
    requires SoundStreams(outs, logs) && arrivals != [] && InOrder(outs, arrivals) && RxSpec.Shape(rx)
    requires AllSafe(outs, rx, arrivals[..|arrivals| - 1])
    ensures var last := arrivals[|arrivals| - 1];
            var (rx', a) := RxSpec.Receive(rx, Wire(outs[last.p][last.k]), cap);
            RxSpec.Shape(rx') && AllSafe(outs, rx', arrivals) && Delivers(outs[last.p], last.k, a)
  {
    var front, last := arrivals[..|arrivals| - 1], arrivals[|arrivals| - 1];
    NextOfLast(arrivals);
    hide Wire, Stream, Distinct, Safe, RxSpec.Receive, Delivers, NextOf;
    assert Linked(outs[last.p]) by { StreamLinked(outs[last.p], logs[last.p]); }
    ReceiveSafe(outs[last.p], rx, last.p, NextOf(front, last.p), last.k, cap);
  }

  lemma StreamLinked(out: seq<Batch>, log: Log)
    requires Stream(out, log)
    ensures Linked(out) && Numbered(out)
  {}

  lemma {:induction false} FeedSafe(outs: seq<seq<Batch>>, logs: seq<Log>, arrivals: seq<Arrival>, cap: nat)
    requires SoundStreams(outs, logs) && InOrder(outs, arrivals)
    ensures AllSafe(outs, Feed(outs, arrivals, cap), arrivals)
  {
    if arrivals == [] {
      forall p: Priority ensures Safe(outs[p], RxSpec.NEW_DEFRAG, Block, 0) &&
          Safe(outs[p], RxSpec.NEW_DEFRAG, Drop, 0) {
        SafeAtStart(outs[p], Block);
        SafeAtStart(outs[p], Drop);
      }
    } else {
      var front := arrivals[..|arrivals| - 1];
      FeedSafe(outs, logs, front, cap);
      hide SoundStreams, AllSafe, RxSpec.Receive, Wire;
      ArrivalSafe(outs, logs, Feed(outs, front, cap), arrivals, cap);
    }
  }

  /** A queued item is made of whole messages of the log. */
  ghost predicate MadeOf(item: RxSpec.Item, p: Priority, log: Log)
  {
    && item.qos.priority == p && item.rest == EncodeMsgs(ParseAll(item.rest))
    && forall m :: m in ParseAll(item.rest) ==> (m, item.qos.cc) in log
  }

  lemma DeliversWhole(out: seq<Batch>, k: nat, a: RxSpec.Accept, p: Priority, log: Log)
    requires k < |out| && Whole(out, k, log) && Delivers(out, k, a) && a.Queue? && out[k].qos.priority == p
    ensures MadeOf(a.item, p, log)
  {
    var b := out[k];
    hide EncodeMsg, ParseAll, Upto;
    if b.FrameBatch? {
      hide EncodeMsgs;
      ParseEncoded(b.msgs);
    } else {
      var m: Msg :| (m, b.qos.cc) in log && Upto(out, k) == EncodeMsg(m);
      assert EncodeMsgs([m]) == EncodeMsg(m);
      ParseEncoded([m]);
      assert ParseAll(a.item.rest) == [m];
    }
  }

  /** Whatever arrives, what is queued parses to whole messages that were sent with that priority and congestion
      class. */
  lemma QueuedIsWhole(outs: seq<seq<Batch>>, logs: seq<Log>, arrivals: seq<Arrival>, cap: nat)
    requires SoundStreams(outs, logs) && InOrder(outs, arrivals) && arrivals != []
    ensures var a, p := Outcome(outs, arrivals, cap), arrivals[|arrivals| - 1].p;
            a.Queue? ==> MadeOf(a.item, p, logs[p])
  {
    var front, last := arrivals[..|arrivals| - 1], arrivals[|arrivals| - 1];
    hide Wire, RxSpec.Receive, Feed, AllSafe, Distinct, Delivers, MadeOf, Whole, Linked, Numbered;
    FeedSafe(outs, logs, front, cap);
    ArrivalSafe(outs, logs, Feed(outs, front, cap), arrivals, cap);
    if Outcome(outs, arrivals, cap).Queue? {
      DeliversWhole(outs[last.p], last.k, Outcome(outs, arrivals, cap), last.p, logs[last.p]);
    }
  }

  /** The 28-bit numbers do not come round. */
  predicate Few(out: seq<Batch>)
  {
    Count(out, Block) < SEQ_MOD && Count(out, Drop) < SEQ_MOD
  }

  /** Four senders' runs, one per priority: what they commit and what they were given. */
  ghost predicate Senders(bs: BatchSize, ops: seq<seq<Op>>, outs: seq<seq<Batch>>, logs: seq<Log>)
  {
    && |ops| == 4 && |outs| == 4 && |logs| == 4
    && forall p: Priority :: outs[p] == RunOps(bs, p, ops[p]).out && logs[p] == LogOf(ops[p])
  }

  /** Soundness under loss: run the senders in any way, lose any part of what they commit, interleave the rest; as
      long as each priority commits fewer than 2^28 batches of each class, everything the receiver queues consists of
      whole messages that were pushed with that priority and that congestion control. */
  lemma SoundUnderLoss(bs: BatchSize, ops: seq<seq<Op>>, outs: seq<seq<Batch>>, logs: seq<Log>,
      arrivals: seq<Arrival>, cap: nat)
    requires Senders(bs, ops, outs, logs) && (forall p: Priority :: Few(outs[p]))
    requires InOrder(outs, arrivals) && arrivals != []
    ensures var a, p := Outcome(outs, arrivals, cap), arrivals[|arrivals| - 1].p;
            a.Queue? ==> MadeOf(a.item, p, logs[p])
  {
    forall p: Priority ensures SoundStream(outs[p], logs[p], p) {
      hide RunOps, LogOf, SoundStream, Few;
      assert Few(outs[p]);
      RunIsSound(bs, p, ops[p]);
    }
    hide RunOps, LogOf, SoundStream, InOrder, Outcome, MadeOf, Few;
    QueuedIsWhole(outs, logs, arrivals, cap);
  }

  lemma RunIsSound(bs: BatchSize, p: Priority, ops: seq<Op>)
    requires Few(RunOps(bs, p, ops).out)
    ensures SoundStream(RunOps(bs, p, ops).out, LogOf(ops), p)
  {
    hide RunOps, LogOf, GoodBatch, Distinct, Whole, Count, Numbered, Linked;
    RunSound(bs, p, ops);
    RunPriority(bs, p, ops);
    ShortStreamsAreDistinct(RunOps(bs, p, ops).out);
    forall k | 0 <= k < |RunOps(bs, p, ops).out| ensures RunOps(bs, p, ops).out[k].qos.priority == p {
      RightLane(bs, p, RunOps(bs, p, ops).out[k]);
    }
  }

  lemma RightLane(bs: BatchSize, p: Priority, b: Batch)
    requires GoodBatch(bs, p, b)
    ensures b.qos.priority == p
  {}
}
