/** Why the bound of 2^28 is there: a sender that goes on beyond it, whose batches get lost, makes the receiver hand
    on a message nobody sent, its beginning from one push and its end from another. */
module LongRun {
  import opened Base
  import opened Codec
  import opened TxSpec
  import opened Loss
  import RxSpec
  import LossExact
  import Vle

  const BS: BatchSize := 64
  const QOS := QoS(0, Block, false)

  /** Two messages of 63 bytes, all zeros and all ones. */
  function Copies(b: byte, n: nat): (s: seq<byte>)
    ensures |s| == n && forall i :: 0 <= i < n ==> s[i] == b
  {
    if n == 0 then [] else Copies(b, n - 1) + [b]
  }

  function A(): (m: Msg)
    ensures |m| == 63
  {
    Copies(0, 63)
  }

  function B(): (m: Msg)
    ensures |m| == 63
  {
    Copies(1, 63)
  }

  /** The message of push i: A first, then B for ever. */
  function MsgAt(i: nat): (m: Msg)
    ensures |m| == 63
  {
    if i == 0 then A() else B()
  }

  function OpAt(i: nat): Op
  {
    OpPush(MsgAt(i), Block, false, Env(2, Timeout, 2, false))
  }

  function LongOps(n: nat): seq<Op>
  {
    if n == 0 then [] else LongOps(n - 1) + [OpAt(n - 1)]
  }

  function Room(s: SeqNum, id: SeqNum): (r: nat)
    ensures 54 <= r <= 60
  {
    HeaderSize(Header(QOS, s, Fragment(First, id)));
    BS - FragHeaderLen(QOS, s, First, id)
  }

  lemma DataLen(m: Msg)
    requires |m| == 63
    ensures |EncodeMsg(m)| == 64 && |Vle.Encode(|m|)| == 1
  {
    Vle.EncodeLength(63);
  }

  /** Each push becomes exactly two fragments. */
  lemma TwoFragments(m: Msg, s: SeqNum, id: SeqNum)
    requires |m| == 63
    ensures !Fits(BS, FrameBatch(QOS, s, [m]))
    ensures var (data, room) := (EncodeMsg(m), Room(s, id));
            && |data| == 64
            && FragmentsOf(BS, QOS, s, id, m) ==
               [FragBatch(QOS, s, First, id, data[..room]), FragBatch(QOS, NextSeq(s), Last, id, data[room..])]
  {
    DataLen(m);
    HeaderSize(Header(QOS, s, Frame));
    assert EncodeMsgs([m]) == EncodeMsg(m);
    HeaderSize(Header(QOS, s, Fragment(First, id)));
    HeaderSize(Header(QOS, NextSeq(s), Fragment(More, id)));
    hide EncodeHeader, EncodeMsg, EncodeMsgs, Vle.Encode;
    OversizedLeavesRest(BS, QOS, s, id, m);
  }

  function FirstSeq(i: nat): SeqNum
  {
    SeqPlus(0, 2 * i + 1)
  }

  function IdOf(i: nat): SeqNum
  {
    SeqPlus(0, i + 1)
  }

  /** The two batches of push i. */
  function Pair(i: nat): seq<Batch>
  {
    var (s, id, data) := (FirstSeq(i), IdOf(i), EncodeMsg(MsgAt(i)));
    DataLen(MsgAt(i));
    [FragBatch(QOS, s, First, id, data[..Room(s, id)]), FragBatch(QOS, NextSeq(s), Last, id, data[Room(s, id)..])]
  }

  ghost predicate LongState(st: Stage, n: nat)
  {
    st.open.None? && st.reliable == SeqPlus(0, 2 * n) && st.fragId == SeqPlus(0, n) && |st.out| == 2 * n
  }

  lemma SeqSteps(n: nat)
    ensures NextSeq(SeqPlus(0, 2 * n)) == FirstSeq(n) && NextSeq(FirstSeq(n)) == SeqPlus(0, 2 * (n + 1))
    ensures NextSeq(SeqPlus(0, n)) == IdOf(n) == SeqPlus(0, n + 1)
  {
    hide SeqPlus, NextSeq;
    SeqPlusNext(0, 2 * n + 1);
    SeqPlusNext(0, 2 * n + 2);
    SeqPlusNext(0, n + 1);
  }

  lemma PushStep(st: Stage, n: nat)
    requires LongState(st, n)
    ensures var st' := Push(BS, st, MsgAt(n), QOS, Env(2, Timeout, 2, false)).0;
            LongState(st', n + 1) && st'.out == st.out + Pair(n)
  {
    SeqSteps(n);
    TwoFragments(MsgAt(n), FirstSeq(n), IdOf(n));
    var l := Pair(n);
    hide FragmentsOf, Fits, SeqPlus, NextSeq, FirstSeq, IdOf, EncodeMsg, Room;
    assert l[..2] == l;
  }

  lemma {:induction false} LongRunState(n: nat)
    ensures LongState(RunOps(BS, 0, LongOps(n)), n)
  {
    hide Push, Pair;
    if n > 0 {
      LongRunState(n - 1);
      RunStep(n);
      PushStep(RunOps(BS, 0, LongOps(n - 1)), n - 1);
    }
  }

  lemma {:induction false} OpsLen(n: nat)
    ensures |LongOps(n)| == n
  {
    if n > 0 {
      OpsLen(n - 1);
    }
  }

  lemma OpsSplit(n: nat)
    requires n > 0
    ensures LongOps(n) != [] && LongOps(n)[..|LongOps(n)| - 1] == LongOps(n - 1) &&
            LongOps(n)[|LongOps(n)| - 1] == OpAt(n - 1)
  {
    OpsLen(n - 1);
  }

  function LongOut(n: nat): seq<Batch>
  {
    RunOps(BS, 0, LongOps(n)).out
  }

  /** Batches 2i and 2i + 1 are the fragments of push i. */
  lemma {:induction false} PairAt(n: nat, i: nat)
    requires i < n
    ensures |LongOut(n)| == 2 * n && LongOut(n)[2 * i] == Pair(i)[0] && LongOut(n)[2 * i + 1] == Pair(i)[1]
  {
    hide Push, Pair, RunOps;
    LongRunState(n);
    LongRunState(n - 1);
    OutStep(n);
    if i < n - 1 {
      PairAt(n - 1, i);
    }
  }

  lemma OutStep(n: nat)
    requires n > 0
    ensures LongOut(n) == LongOut(n - 1) + Pair(n - 1)
  {
    hide Push, Pair, RunOps;
    LongRunState(n - 1);
    RunStep(n);
    PushStep(RunOps(BS, 0, LongOps(n - 1)), n - 1);
  }

  lemma RunStep(n: nat)
    requires n > 0
    ensures RunOps(BS, 0, LongOps(n)) ==
            Push(BS, RunOps(BS, 0, LongOps(n - 1)), MsgAt(n - 1), QOS, Env(2, Timeout, 2, false)).0
  {
    hide Push, LongOps;
    OpsSplit(n);
  }

  /** After 2^28 pushes of two fragments each, all numbers are back where they began. */
  lemma NumbersReturn()
    ensures FirstSeq(SEQ_MOD) == FirstSeq(0) && IdOf(SEQ_MOD) == IdOf(0)
  {}

  lemma PairFacts(i: nat)
    ensures var (x, y, s) := (Pair(i)[0], Pair(i)[1], FirstSeq(i));
            && x == FragBatch(QOS, s, First, IdOf(i), EncodeMsg(MsgAt(i))[..Room(s, IdOf(i))])
            && y == FragBatch(QOS, NextSeq(s), Last, IdOf(i), EncodeMsg(MsgAt(i))[Room(s, IdOf(i))..])
  {
    hide EncodeMsg, Room, FirstSeq, IdOf;
  }

  /** The run meets the condition's exception, so by `LossExact.IntactIsHarmless` some loss breaks it. */
  lemma LongRunIsHarmful()
    ensures LossExact.Mistakable(LongOut(SEQ_MOD + 1), 0, 2 * SEQ_MOD) && !LossExact.Harmless(LongOut(SEQ_MOD + 1))
  {
    hide LongOut, Pair, EncodeMsg, Room, FirstSeq, IdOf, MsgAt;
    PairAt(SEQ_MOD + 1, 0);
    PairAt(SEQ_MOD + 1, SEQ_MOD);
    PairFacts(0);
    PairFacts(SEQ_MOD);
    NumbersReturn();
  }

  lemma {:induction false} LongLog(n: nat)
    ensures LogOf(LongOps(n)) <= {(A(), Block), (B(), Block)}
  {
    hide A, B, LongOps;
    if n == 0 {
      NoOps();
    } else {
      OpsSplit(n);
      LongLog(n - 1);
    }
  }

  lemma NoOps()
    ensures LongOps(0) == []
  {}

  /** The beginning of A and the end of B. */
  function Spliced(room: nat): Msg
    requires 2 <= room <= 60
  {
    A()[..room - 1] + B()[room - 1..]
  }

  lemma SplicedBytes(room: nat)
    requires 2 <= room <= 60
    ensures EncodeMsg(A())[..room] + EncodeMsg(B())[room..] == EncodeMsg(Spliced(room))
    ensures Spliced(room) != A() && Spliced(room) != B()
  {
    DataLen(A());
    DataLen(B());
    var (l, m) := (Vle.Encode(63), Spliced(room));
    assert |m| == 63 && m[0] == 0 && m[62] == 1;
    hide Vle.Encode;
    assert (l + A())[..room] == l + A()[..room - 1];
    assert (l + B())[room..] == B()[room - 1..];
  }

  /** A sender's run of 2^28 + 1 pushes, all but two of its batches lost: the receiver hands on a message that was never
      pushed, the beginning of the first message and the end of the last. */
  lemma LongRunSplices(cap: nat)
    requires cap >= 64
    ensures var outs, arrivals := [LongOut(SEQ_MOD + 1), [], [], []], [Arrival(0, 0), Arrival(0, 2 * SEQ_MOD + 1)];
            && InOrder(outs, arrivals) && Outcome(outs, arrivals, cap).Queue?
            && !MadeOf(Outcome(outs, arrivals, cap).item, 0, LogOf(LongOps(SEQ_MOD + 1)))
  {
    var outs, arrivals := [LongOut(SEQ_MOD + 1), [], [], []], [Arrival(0, 0), Arrival(0, 2 * SEQ_MOD + 1)];
    var room := Room(FirstSeq(0), IdOf(0));
    LongPair(room);
    var (x, y) := (Pair(0)[0], Pair(SEQ_MOD)[1]);
    hide LongOut, EncodeMsg, MadeOf, LogOf, Outcome, Pair, FirstSeq, IdOf, LongOps, NextSeq, InOrder;
    TwoArrivals(outs, arrivals, x, y, cap, room);
    SplicedBytes(room);
    LongLog(SEQ_MOD + 1);
    NotMade(Outcome(outs, arrivals, cap).item, Spliced(room), LogOf(LongOps(SEQ_MOD + 1)));
  }

  /** The fragments that arrive. */
  lemma LongPair(room: nat)
    requires room == Room(FirstSeq(0), IdOf(0))
    ensures |LongOut(SEQ_MOD + 1)| == 2 * SEQ_MOD + 2
    ensures LongOut(SEQ_MOD + 1)[0] == Pair(0)[0] && LongOut(SEQ_MOD + 1)[2 * SEQ_MOD + 1] == Pair(SEQ_MOD)[1]
    ensures var (x, y) := (Pair(0)[0], Pair(SEQ_MOD)[1]);
            && x.FragBatch? && x.kind.First? && y.FragBatch? && y.kind.Last? && x.qos == y.qos == QOS
            && y.seqNum == NextSeq(x.seqNum) && y.fragId == x.fragId && |x.payload| + |y.payload| <= 64
            && x.payload == EncodeMsg(A())[..room] && y.payload == EncodeMsg(B())[room..]
  {
    hide LongOut, EncodeMsg, Pair, Room, FirstSeq, IdOf, NextSeq, A, B;
    PairAt(SEQ_MOD + 1, 0);
    PairAt(SEQ_MOD + 1, SEQ_MOD);
    PairFacts(0);
    PairFacts(SEQ_MOD);
    NumbersReturn();
    DataLen(A());
    DataLen(B());
  }

  lemma NotMade(item: RxSpec.Item, m: Msg, log: Log)
    requires item.rest == EncodeMsg(m) && item.qos.cc.Block? && m != A() && m != B()
    requires log <= {(A(), Block), (B(), Block)}
    ensures !MadeOf(item, 0, log)
  {
    hide A, B, EncodeMsg, ParseAll, EncodeMsgs;
    ParsedOne(m);
    assert m in ParseAll(item.rest);
    assert (m, Block) !in log;
  }

  lemma ParsedOne(m: Msg)
    ensures ParseAll(EncodeMsg(m)) == [m]
  {
    hide EncodeMsg, ParseAll;
    assert EncodeMsgs([m]) == EncodeMsg(m);
    ParseEncoded([m]);
  }

  lemma FirstArrives(x: Batch, cap: nat)
    requires x.FragBatch? && x.kind.First? && x.qos == QOS && |x.payload| <= cap
    ensures var rx := RxSpec.Receive(RxSpec.INIT_RX, Wire(x), cap).0;
            RxSpec.Shape(rx) && rx.block[0] == RxSpec.Defrag(NextSeq(x.seqNum), x.fragId, x.payload)
  {
    ReceiveWire(RxSpec.INIT_RX, x, cap);
    hide RxSpec.Receive, Wire;
    assert [] + x.payload == x.payload;
  }

  lemma LastArrives(rx: RxSpec.Rx, x: Batch, y: Batch, cap: nat)
    requires x.FragBatch? && RxSpec.Shape(rx)
    requires rx.block[0] == RxSpec.Defrag(NextSeq(x.seqNum), x.fragId, x.payload)
    requires y.FragBatch? && y.kind.Last? && y.qos == QOS && y.seqNum == NextSeq(x.seqNum)
    requires y.fragId == x.fragId && |x.payload| + |y.payload| <= cap
    ensures RxSpec.Receive(rx, Wire(y), cap).1 == RxSpec.Queue(RxSpec.Item(QOS, x.payload + y.payload))
  {
    ReceiveWire(rx, y, cap);
    hide RxSpec.Receive, Wire, NextSeq;
  }

  /** A First and a Last whose numbers fit together, arriving one after the other. */
  lemma TwoArrivals(outs: seq<seq<Batch>>, arrivals: seq<Arrival>, x: Batch, y: Batch, cap: nat, room: nat)
    requires |outs| == 4 && |arrivals| == 2 && arrivals[0].p == 0 && arrivals[1].p == 0
    requires arrivals[0].k < arrivals[1].k < |outs[0]| && outs[0][arrivals[0].k] == x && outs[0][arrivals[1].k] == y
    requires x.FragBatch? && x.kind.First? && y.FragBatch? && y.kind.Last? && x.qos == y.qos == QOS
    requires y.seqNum == NextSeq(x.seqNum) && y.fragId == x.fragId && |x.payload| + |y.payload| <= cap
    ensures InOrder(outs, arrivals) &&
            Outcome(outs, arrivals, cap) == RxSpec.Queue(RxSpec.Item(QOS, x.payload + y.payload))
  {
    var rx := RxSpec.Receive(RxSpec.INIT_RX, Wire(x), cap).0;
    FirstArrives(x, cap);
    LastArrives(rx, x, y, cap);
    hide RxSpec.Receive, Wire, NextSeq;
    assert arrivals[..1] == [arrivals[0]] && arrivals[..1][..0] == [];
    assert InOrder(outs, arrivals[..1]) && Feed(outs, arrivals[..1], cap) == rx;
  }
}
