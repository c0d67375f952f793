/** Sender's fragments meet receiver's reassembly: what a list of committed batches makes on the other side. */
module Reassembly {
  import opened Base
  import opened Codec
  import opened TxSpec
  import opened RxSpec
  import Loss

  /** The two reassembly buffers of one priority. */
  datatype Bufs = Bufs(block: Defrag, drop: Defrag)

  function BufOf(d: Bufs, cc: CongestionControl): Defrag
  {
    if cc.Block? then d.block else d.drop
  }

  function SetBuf(d: Bufs, cc: CongestionControl, x: Defrag): Bufs
  {
    if cc.Block? then d.(block := x) else d.(drop := x)
  }

  function Take(d: Bufs, b: Batch, cap: nat): (Bufs, Accept)
  {
    match b
    case FrameBatch(qos, _, msgs) => (d, Queue(Item(qos, EncodeMsgs(msgs))))
    case FragBatch(qos, s, kind, id, payload) =>
      var (x, a) := RxSpec.Fragment(BufOf(d, qos.cc), qos, s, kind, id, payload, cap);
      (SetBuf(d, qos.cc, x), a)
  }

  function MsgsOf(a: Accept): seq<(Msg, QoS)>
  {
    if a.Queue? then Tag(ParseAll(a.item.rest), a.item.qos) else []
  }

  /** The messages the batches bs will still make, received in order from the buffers' state. */
  function Absorb(d: Bufs, bs: seq<Batch>, cap: nat): seq<(Msg, QoS)>
    decreases |bs|
  {
    if bs == [] then [] else MsgsOf(Take(d, bs[0], cap).1) + Absorb(Take(d, bs[0], cap).0, bs[1..], cap)
  }

  function After(d: Bufs, bs: seq<Batch>, cap: nat): Bufs
    decreases |bs|
  {
    if bs == [] then d else After(Take(d, bs[0], cap).0, bs[1..], cap)
  }

  lemma {:induction false} AbsorbAppend(d: Bufs, a: seq<Batch>, b: seq<Batch>, cap: nat)
    ensures Absorb(d, a + b, cap) == Absorb(d, a, cap) + Absorb(After(d, a, cap), b, cap)
    decreases |a|
  {
    hide Take, MsgsOf;
    if a == [] {
      assert a + b == b;
    } else {
      assert (a + b)[0] == a[0] && (a + b)[1..] == a[1..] + b;
      AbsorbAppend(Take(d, a[0], cap).0, a[1..], b, cap);
    }
  }

  lemma AbsorbOne(d: Bufs, b: Batch, cap: nat)
    ensures Absorb(d, [b], cap) == MsgsOf(Take(d, b, cap).1)
  {
    hide Take, MsgsOf;
    assert Absorb(Take(d, b, cap).0, [], cap) == [];
  }

  /** A frame yields the messages in it. */
  lemma TakeFrame(d: Bufs, b: Batch, cap: nat)
    requires b.FrameBatch?
    ensures MsgsOf(Take(d, b, cap).1) == Tag(b.msgs, b.qos)
  {
    hide EncodeMsgs, ParseAll;
    ParseEncoded(b.msgs);
  }

  // ---- fragments of one message ----------------------------------------------------------------

  /** Fragment j >= 1 meets a buffer holding everything before it. */
  lemma {:induction false} AbsorbRest(d: Bufs, l: seq<Batch>, qos: QoS, s: SeqNum, id: SeqNum, j: nat, m: Msg, cap: nat)
    requires Loss.AreFragments(l, qos, s, id) && 1 <= j < |l| && Payloads(l) == EncodeMsg(m) && |EncodeMsg(m)| <= cap
    requires BufOf(d, qos.cc) == Defrag(l[j].seqNum, id, Payloads(l[..j]))
    ensures Absorb(d, l[j..], cap) == [(m, qos)]
    decreases |l| - j
  {
    hide EncodeMsg, Payloads, ParseAll, Tag, Absorb, NextSeq, Loss.AreFragments, Loss.Follows;
    var b := l[j];
    var (d', a) := Take(d, b, cap);
    TakeRest(d, l, qos, s, id, j, cap);
    AbsorbHead(d, l, j, cap);
    if j + 1 == |l| {
      OneMessage(m, qos);
      assert l[..j + 1] == l;
    } else {
      AbsorbRest(d', l, qos, s, id, j + 1, m, cap);
      assert [] + [(m, qos)] == [(m, qos)];
    }
  }

  lemma AbsorbHead(d: Bufs, l: seq<Batch>, j: nat, cap: nat)
    requires j < |l|
    ensures Absorb(d, l[j..], cap) == MsgsOf(Take(d, l[j], cap).1) + Absorb(Take(d, l[j], cap).0, l[j + 1..], cap)
    ensures j + 1 == |l| ==> Absorb(Take(d, l[j], cap).0, l[j + 1..], cap) == []
  {
    hide Take, MsgsOf;
    assert l[j..][1..] == l[j + 1..];
  }

  lemma OneMessage(m: Msg, qos: QoS)
    ensures Tag(ParseAll(EncodeMsg(m)), qos) == [(m, qos)]
  {
    hide ParseAll, EncodeMsg;
    assert EncodeMsgs([m]) == EncodeMsg(m) + EncodeMsgs([]) == EncodeMsg(m);
    ParseEncoded([m]);
  }

  lemma PayloadsBound(l: seq<Batch>, j: nat)
    requires j <= |l| && forall i :: 0 <= i < |l| ==> l[i].FragBatch?
    ensures |Payloads(l[..j])| <= |Payloads(l)|
    decreases |l| - j
  {
    if j == |l| {
      assert l[..j] == l;
    } else {
      assert l[..j + 1] == l[..j] + [l[j]];
      Loss.PayloadsPush(l[..j], l[j]);
      PayloadsBound(l, j + 1);
    }
  }

  /** The buffer takes fragment j and holds everything up to it; the last hands the whole on. */
  lemma TakeRest(d: Bufs, l: seq<Batch>, qos: QoS, s: SeqNum, id: SeqNum, j: nat, cap: nat)
    requires Loss.AreFragments(l, qos, s, id) && 1 <= j < |l| && |Payloads(l)| <= cap
    requires BufOf(d, qos.cc) == Defrag(l[j].seqNum, id, Payloads(l[..j]))
    ensures var (d', a) := Take(d, l[j], cap);
            if j + 1 == |l| then a == Queue(Item(qos, Payloads(l[..j + 1])))
            else a == Stored && BufOf(d', qos.cc) == Defrag(l[j + 1].seqNum, id, Payloads(l[..j + 1]))
  {
    hide Payloads, NextSeq, Loss.AreFragments;
    Loss.FragmentLinks(l, qos, s, id, j);
    if j + 1 < |l| {
      Loss.FragmentLinks(l, qos, s, id, j + 1);
    }
    LastKind(l, qos, s, id, j);
    assert l[..j + 1] == l[..j] + [l[j]];
    Loss.PayloadsPush(l[..j], l[j]);
    PayloadsBound(l, j + 1);
  }

  lemma LastKind(l: seq<Batch>, qos: QoS, s: SeqNum, id: SeqNum, j: nat)
    requires Loss.AreFragments(l, qos, s, id) && j < |l| && |l| >= 2
    ensures l[j].kind == if j == 0 then First else if j + 1 == |l| then Last else More
  {
    assert FragAt(l[j], qos, s, id, true, j, |l|);
  }

  /** All the fragments of a message, whatever the buffers held before, make exactly that message. */
  lemma AbsorbFragments(d: Bufs, l: seq<Batch>, qos: QoS, s: SeqNum, id: SeqNum, m: Msg, cap: nat)
    requires Loss.AreFragments(l, qos, s, id) && |l| >= 2 && Payloads(l) == EncodeMsg(m) && |EncodeMsg(m)| <= cap
    ensures Absorb(d, l, cap) == [(m, qos)]
  {
    hide EncodeMsg, ParseAll, Tag, Absorb, NextSeq, Loss.AreFragments, Payloads;
    Loss.FragmentLinks(l, qos, s, id, 0);
    Loss.FragmentLinks(l, qos, s, id, 1);
    LastKind(l, qos, s, id, 0);
    Loss.CutStep([], l, 0);
    Loss.PayloadsPush([], l[0]);
    Loss.PayloadsNone();
    PayloadsBound(l, 1);
    assert l[..0] == [] && l[0..] == l;
    AbsorbHead(d, l, 0, cap);
    var d' := Take(d, l[0], cap).0;
    assert BufOf(d', qos.cc) == Defrag(l[1].seqNum, id, Payloads(l[..1]));
    AbsorbRest(d', l, qos, s, id, 1, m, cap);
    assert [] + [(m, qos)] == [(m, qos)];
  }

  /** Without its last fragment a message makes nothing. */
  lemma {:induction false} AbsorbCut(d: Bufs, l: seq<Batch>, cap: nat)
    requires forall i :: 0 <= i < |l| ==> l[i].FragBatch? && !l[i].kind.Last?
    ensures Absorb(d, l, cap) == []
    decreases |l|
  {
    if l != [] {
      hide Absorb;
      AbsorbHead(d, l, 0, cap);
      assert l[0..] == l;
      AbsorbCut(Take(d, l[0], cap).0, l[1..], cap);
    } else {
      assert Absorb(d, [], cap) == [];
    }
  }

  // ---- a message beyond the receiver's limit ---------------------------------------------------

  lemma SeqPlusApart(s: SeqNum, i: nat, j: nat)
    requires i < j < i + SEQ_MOD
    ensures SeqPlus(s, i) != SeqPlus(s, j)
  {}

  /** A buffer that waits for a number no later fragment carries takes none of them. */
  lemma {:induction false} AbsorbDead(d: Bufs, l: seq<Batch>, qos: QoS, s: SeqNum, id: SeqNum, j: nat, cap: nat)
    requires Loss.AreFragments(l, qos, s, id) && 1 <= j <= |l| && |l| >= 2
    requires forall i :: j <= i < |l| ==> l[i].seqNum != BufOf(d, qos.cc).seqNum
    ensures Absorb(d, l[j..], cap) == []
    decreases |l| - j
  {
    hide Absorb, Loss.AreFragments;
    if j == |l| {
      AbsorbNone(d, cap);
      assert l[j..] == [];
    } else {
      Loss.FragmentLinks(l, qos, s, id, j);
      LastKind(l, qos, s, id, j);
      AbsorbHead(d, l, j, cap);
      AbsorbDead(Take(d, l[j], cap).0, l, qos, s, id, j + 1, cap);
    }
  }

  lemma AbsorbNone(d: Bufs, cap: nat)
    ensures Absorb(d, [], cap) == []
  {}

  /** Once a fragment is refused for its size, none of the rest is expected. */
  lemma DeadAfter(d: Defrag, l: seq<Batch>, qos: QoS, s: SeqNum, id: SeqNum, j: nat)
    requires Loss.AreFragments(l, qos, s, id) && j < |l| <= SEQ_MOD && d.seqNum == l[j].seqNum
    ensures forall i :: j + 1 <= i < |l| ==> l[i].seqNum != d.seqNum
  {
    assert FragAt(l[j], qos, s, id, true, j, |l|);
    forall i | j + 1 <= i < |l| ensures l[i].seqNum != d.seqNum {
      assert FragAt(l[i], qos, s, id, true, i, |l|);
      hide SeqPlus;
      SeqPlusApart(s, j, i);
    }
  }

  lemma {:induction false} AbsorbTooLong(d: Bufs, l: seq<Batch>, qos: QoS, s: SeqNum, id: SeqNum, j: nat, cap: nat)
    requires Loss.AreFragments(l, qos, s, id) && 2 <= |l| <= SEQ_MOD && 1 <= j < |l| && |Payloads(l)| > cap
    requires BufOf(d, qos.cc) == Defrag(l[j].seqNum, id, Payloads(l[..j]))
    ensures Absorb(d, l[j..], cap) == []
    decreases |l| - j
  {
    hide Payloads, NextSeq, Loss.AreFragments, Absorb;
    Loss.FragmentLinks(l, qos, s, id, j);
    LastKind(l, qos, s, id, j);
    Loss.CutStep([], l, j);
    Loss.PayloadsPush(l[..j], l[j]);
    AbsorbHead(d, l, j, cap);
    var d' := Take(d, l[j], cap).0;
    if |Payloads(l[..j + 1])| > cap {
      DeadAfter(BufOf(d', qos.cc), l, qos, s, id, j);
      AbsorbDead(d', l, qos, s, id, j + 1, cap);
    } else {
      assert l[..|l|] == l;
      Loss.FragmentLinks(l, qos, s, id, j + 1);
      AbsorbTooLong(d', l, qos, s, id, j + 1, cap);
    }
  }

  /** The receiver's limit is exact: a fragmented message (of at most 2^28 fragments) is handed on if and only if its
      length and bytes together fit `frag_max_size`; otherwise no part of it is. */
  lemma FragMaxIsExact(d: Bufs, l: seq<Batch>, qos: QoS, s: SeqNum, id: SeqNum, m: Msg, cap: nat)
    requires Loss.AreFragments(l, qos, s, id) && 2 <= |l| <= SEQ_MOD && Payloads(l) == EncodeMsg(m)
    ensures Absorb(d, l, cap) == if |EncodeMsg(m)| <= cap then [(m, qos)] else []
  {
    if |EncodeMsg(m)| <= cap {
      AbsorbFragments(d, l, qos, s, id, m, cap);
    } else {
      hide EncodeMsg, NextSeq, Loss.AreFragments, Payloads, Absorb;
      Loss.FragmentLinks(l, qos, s, id, 0);
      Loss.FragmentLinks(l, qos, s, id, 1);
      LastKind(l, qos, s, id, 0);
      Loss.CutStep([], l, 0);
      Loss.PayloadsPush([], l[0]);
      Loss.PayloadsNone();
      assert l[..0] == [] && l[0..] == l;
      AbsorbHead(d, l, 0, cap);
      var d' := Take(d, l[0], cap).0;
      if |Payloads(l[..1])| > cap {
        DeadAfter(BufOf(d', qos.cc), l, qos, s, id, 0);
        AbsorbDead(d', l, qos, s, id, 1, cap);
      } else {
        AbsorbTooLong(d', l, qos, s, id, 1, cap);
      }
    }
  }

  // ---- batches the sender discards -------------------------------------------------------------

  /** A list starting inside a message whose last fragment never comes. */
  predicate Doomed(bs: seq<Batch>)
  {
    && bs != [] && bs[0].FragBatch? && !bs[0].kind.Last?
    && (|bs| == 1 || !Loss.Continues(bs[1]) || Doomed(bs[1..]))
  }

  /** The buffers agree except perhaps on class cc. */
  predicate AgreeBut(d: Bufs, d': Bufs, cc: CongestionControl)
  {
    if cc.Block? then d.drop == d'.drop else d.block == d'.block
  }

  /** What buffer cc holds does not matter before a First of its class, or inside a doomed message. */
  lemma {:induction false} StaleBuffer(d: Bufs, d': Bufs, cc: CongestionControl, out: seq<Batch>, k: nat,
      open: seq<Batch>, cap: nat)
    requires AgreeBut(d, d', cc) && Loss.Linked(out) && k <= |out|
    requires |open| <= 1 && (open != [] ==> open[0].FrameBatch?)
    requires k == |out| || out[k].qos.cc != cc || !Loss.Continues(out[k]) || Doomed(out[k..])
    ensures Absorb(d, out[k..] + open, cap) == Absorb(d', out[k..] + open, cap)
    decreases |out| - k
  {
    hide MsgsOf, EncodeMsgs, Absorb;
    if k == |out| {
      OpenOnly(d, d', open, cap);
      assert out[k..] + open == open;
    } else {
      var b := out[k];
      var e, e' := Take(d, b, cap).0, Take(d', b, cap).0;
      HeadThen(d, out, k, open, cap);
      HeadThen(d', out, k, open, cap);
      NotQueued(d, b, cap);
      NotQueued(d', b, cap);
      if k + 1 < |out| && Loss.Continues(out[k + 1]) {
        assert Loss.Follows(out[k], out[k + 1]);
        assert out[k..][1] == out[k + 1] && out[k..][1..] == out[k + 1..];
      }
      if b.FragBatch? && b.qos.cc == cc && b.kind.First? {
        assert e == e';
      } else {
        StaleBuffer(e, e', cc, out, k + 1, open, cap);
      }
    }
  }

  lemma HeadThen(d: Bufs, out: seq<Batch>, k: nat, open: seq<Batch>, cap: nat)
    requires k < |out|
    ensures Absorb(d, out[k..] + open, cap) == MsgsOf(Take(d, out[k], cap).1) +
            Absorb(Take(d, out[k], cap).0, out[k + 1..] + open, cap)
  {
    hide Take, MsgsOf;
    assert (out[k..] + open)[1..] == out[k + 1..] + open;
  }

  lemma OpenOnly(d: Bufs, d': Bufs, open: seq<Batch>, cap: nat)
    requires |open| <= 1 && (open != [] ==> open[0].FrameBatch?)
    ensures Absorb(d, open, cap) == Absorb(d', open, cap)
  {
    hide MsgsOf, EncodeMsgs;
    if open != [] {
      assert open == [open[0]];
      AbsorbOne(d, open[0], cap);
      AbsorbOne(d', open[0], cap);
    }
  }

  lemma NotQueued(d: Bufs, b: Batch, cap: nat)
    ensures b.FragBatch? && !b.kind.Last? ==> MsgsOf(Take(d, b, cap).1) == []
  {}

  /** Discarding a fragment of a doomed message changes nothing for the receiver. */
  lemma ShedDoomed(d: Bufs, out: seq<Batch>, i: nat, open: seq<Batch>, cap: nat)
    requires Loss.Linked(out) && i < |out| && Doomed(out[i..])
    requires |open| <= 1 && (open != [] ==> open[0].FrameBatch?)
    ensures Absorb(d, out[i + 1..] + open, cap) == Absorb(d, out[i..] + open, cap)
  {
    var b := out[i];
    HeadThen(d, out, i, open, cap);
    NotQueued(d, b, cap);
    assert i + 1 < |out| ==> out[i..][1] == out[i + 1] && out[i..][1..] == out[i + 1..];
    hide MsgsOf, EncodeMsgs, Absorb, Loss.Linked;
    StaleBuffer(d, Take(d, b, cap).0, b.qos.cc, out, i + 1, open, cap);
  }

  /** Blocking messages come through the Block buffer alone. */
  lemma {:induction false} BlockBufferOnly(d: Bufs, d': Bufs, bs: seq<Batch>, cap: nat)
    requires d.block == d'.block
    ensures Blocking(Absorb(d, bs, cap)) == Blocking(Absorb(d', bs, cap))
    decreases |bs|
  {
    if bs != [] {
      var b := bs[0];
      var (e, a) := Take(d, b, cap);
      var (e', a') := Take(d', b, cap);
      if b.qos.cc.Drop? {
        DroppableMsgs(d, b, cap);
        DroppableMsgs(d', b, cap);
      }
      hide MsgsOf, Blocking;
      BlockingAppend(MsgsOf(a), Absorb(e, bs[1..], cap));
      BlockingAppend(MsgsOf(a'), Absorb(e', bs[1..], cap));
      BlockBufferOnly(e, e', bs[1..], cap);
    }
  }

  lemma DroppableMsgs(d: Bufs, b: Batch, cap: nat)
    requires b.qos.cc.Drop?
    ensures Blocking(MsgsOf(Take(d, b, cap).1)) == [] && Take(d, b, cap).0.block == d.block
  {
    hide ParseAll, EncodeMsgs, Tag;
    var a := Take(d, b, cap).1;
    if a.Queue? {
      DroppableTag(ParseAll(a.item.rest), a.item.qos);
    }
  }

  /** Discarding a droppable batch costs droppable messages only. */
  lemma ShedDroppable(d: Bufs, b: Batch, rest: seq<Batch>, cap: nat)
    requires b.qos.cc.Drop?
    ensures Blocking(Absorb(d, rest, cap)) == Blocking(Absorb(d, [b] + rest, cap))
  {
    var (e, a) := Take(d, b, cap);
    assert ([b] + rest)[1..] == rest;
    DroppableMsgs(d, b, cap);
    hide MsgsOf, Blocking, Take;
    BlockingAppend(MsgsOf(a), Absorb(e, rest, cap));
    BlockBufferOnly(d, e, rest, cap);
  }
}
