/** src/pipeline/tx.rs, `StageInPrio::push`, as a function on batches: which messages share a frame, when a frame is
    flushed, and how an oversized message is cut. TxStage proves the imperative code against it. */
module TxSpec {
  import opened Base
  import opened Codec
  import Vle

  /** What a batch means. Its bytes are `Wire`. */
  datatype Batch =
    | FrameBatch(qos: QoS, seqNum: SeqNum, msgs: seq<Msg>)
    | FragBatch(qos: QoS, seqNum: SeqNum, kind: Kind, fragId: SeqNum, payload: seq<byte>)

  function HeaderOf(b: Batch): Header
  {
    Header(b.qos, b.seqNum, if b.FrameBatch? then Frame else Fragment(b.kind, b.fragId))
  }

  function Wire(b: Batch): seq<byte>
  {
    EncodeHeader(HeaderOf(b)) + if b.FrameBatch? then EncodeMsgs(b.msgs) else b.payload
  }

  /** One qos byte, four for the sequence number, one for the body, four for the fragment id, nine for the length. */
  const MIN_BATCH: nat := 19
  type BatchSize = n: nat | MIN_BATCH <= n < 0x1_0000 witness 19

  /** The header of the first fragment together with the length it carries. */
  function FirstHeaderLen(qos: QoS, s: SeqNum, id: SeqNum, len: u64): nat
  {
    |EncodeHeader(Header(qos, s, Fragment(First, id)))| + |Vle.Encode(len)|
  }

  /** Nineteen is exact: from there on the first header always fits; below, some message's does not. */
  lemma MinimumBatch(bs: nat)
    ensures bs >= MIN_BATCH <==> forall qos, s, id, len: u64 :: FirstHeaderLen(qos, s, id, len) <= bs
  {
    forall qos, s, id, len: u64 ensures FirstHeaderLen(qos, s, id, len) <= MIN_BATCH {
      HeaderSize(Header(qos, s, Fragment(First, id)));
      Vle.EncodeLength(len);
    }
    var worst := FirstHeaderLen(QoS(0, Block, false), SEQ_MOD - 1, SEQ_MOD - 1, TWO64 - 1);
    HeaderSize(Header(QoS(0, Block, false), SEQ_MOD - 1, Fragment(First, SEQ_MOD - 1)));
    Vle.EncodeLength(TWO64 - 1);
    Vle.EncodeLength(SEQ_MOD - 1);
    assert worst == MIN_BATCH;
  }

  /** The state a priority's lock protects: its counters, the booked batch, and the batches committed so far. */
  datatype Stage = Stage(reliable: SeqNum, bestEffort: SeqNum, fragId: SeqNum, open: Option<Batch>, out: seq<Batch>)

  const INIT_STAGE := Stage(0, 0, 0, None, [])

  datatype SendError = Timeout | Dropped | Closed | EncodingFailed | Internal
  datatype SendResult = Pushed(notify: bool) | Failed(error: SendError)

  /** What the rest of the system answers during one push: the first `grants` requests for a fresh batch are granted and
      the next is refused with `denial` (the wait timed out, or the refill side is gone); the first `notifies`
      notifications find the puller alive and the next does not; `flush` is the puller's request read at the end. */
  datatype Env = Env(grants: nat, denial: SendError, notifies: nat, flush: bool)

  function SeqOf(st: Stage, cc: CongestionControl): SeqNum
  {
    if cc.Block? then st.reliable else st.bestEffort
  }

  function SetSeq(st: Stage, cc: CongestionControl, s: SeqNum): Stage
  {
    if cc.Block? then st.(reliable := s) else st.(bestEffort := s)
  }

  predicate Fits(bs: BatchSize, b: Batch)
  {
    |Wire(b)| <= bs
  }

  function Append(b: Batch, m: Msg): Batch
    requires b.FrameBatch?
  {
    b.(msgs := b.msgs + [m])
  }

  function Commit(st: Stage): Stage
  {
    if st.open.Some? then st.(open := None, out := st.out + [st.open.value]) else st
  }

  // ---- fragmentation ---------------------------------------------------------------------------

  function FragHeaderLen(qos: QoS, s: SeqNum, k: Kind, id: SeqNum): (n: nat)
    ensures 4 <= n <= 10
  {
    HeaderSize(Header(qos, s, Fragment(k, id)));
    |EncodeHeader(Header(qos, s, Fragment(k, id)))|
  }

  /** The fragments after the first: More while the rest does not fit, then one Last. */
  function RestFragments(bs: BatchSize, qos: QoS, s: SeqNum, id: SeqNum, data: seq<byte>): seq<Batch>
    decreases |data|
  {
    var room := bs - FragHeaderLen(qos, s, More, id);
    if room >= |data| then [FragBatch(qos, s, Last, id, data)]
    else [FragBatch(qos, s, More, id, data[..room])] + RestFragments(bs, qos, NextSeq(s), id, data[room..])
  }

  /** A message cut into fragments: its length and bytes, in order. */
  function Fragments(bs: BatchSize, qos: QoS, s: SeqNum, id: SeqNum, data: seq<byte>): seq<Batch>
    requires |data| > bs - FragHeaderLen(qos, s, First, id)
  {
    var room := bs - FragHeaderLen(qos, s, First, id);
    [FragBatch(qos, s, First, id, data[..room])] + RestFragments(bs, qos, NextSeq(s), id, data[room..])
  }

  /** Fragmentation starts only when the message did not fit a fresh frame, whose header is shorter. */
  lemma OversizedLeavesRest(bs: BatchSize, qos: QoS, s: SeqNum, id: SeqNum, m: Msg)
    requires !Fits(bs, FrameBatch(qos, s, [m]))
    ensures |EncodeMsg(m)| >= bs - FragHeaderLen(qos, s, First, id) + 2
    ensures |Vle.Encode(|m|)| <= bs - FragHeaderLen(qos, s, First, id)
  {
    HeaderSize(Header(qos, s, Fragment(First, id)));
    HeaderSize(Header(qos, s, Frame));
    Vle.EncodeLength(id);
    Vle.EncodeLength(|m|);
    assert EncodeMsgs([m]) == EncodeMsg(m);
  }

  /** The fragments of a message that does not fit a fresh frame. */
  function FragmentsOf(bs: BatchSize, qos: QoS, s: SeqNum, id: SeqNum, m: Msg): (l: seq<Batch>)
    requires !Fits(bs, FrameBatch(qos, s, [m]))
    ensures l != []
  {
    OversizedLeavesRest(bs, qos, s, id, m);
    Fragments(bs, qos, s, id, EncodeMsg(m))
  }

  // ---- push ------------------------------------------------------------------------------------

  /** The tail of a push that wrote into the booked frame: an express message or a flush request commits it. */
  function Finish(st: Stage, express: bool, env: Env): (Stage, SendResult)
  {
    if express || env.flush then (Commit(st), if env.notifies > 0 then Pushed(false) else Failed(Closed))
    else (st, Pushed(true))
  }

  /** Every committed fragment needs a batch and a notification; the first refusal ends the push. */
  function Committed(total: nat, grants: nat, notifies: nat): nat
  {
    var k := if total <= grants + 1 then total else grants + 1;
    if k <= notifies + 1 then k else notifies + 1
  }

  /** The state once the first k fragments of a message are committed. */
  function AfterFragments(st: Stage, cc: CongestionControl, id: SeqNum, frags: seq<Batch>, k: nat): Stage
    requires 1 <= k <= |frags|
  {
    SetSeq(st, cc, frags[k - 1].seqNum).(fragId := id, open := None, out := st.out + frags[..k])
  }

  function PushFragments(bs: BatchSize, st: Stage, m: Msg, qos: QoS, env: Env): (Stage, SendResult)
    requires !Fits(bs, FrameBatch(qos, NextSeq(SeqOf(st, qos.cc)), [m]))
  {
    var s, id := NextSeq(SeqOf(st, qos.cc)), NextSeq(st.fragId);
    var frags := FragmentsOf(bs, qos, s, id, m);
    var k := Committed(|frags|, env.grants, env.notifies);
    (AfterFragments(st, qos.cc, id, frags, k),
     if env.notifies < k then Failed(Closed) else if k == |frags| then Pushed(false) else Failed(env.denial))
  }

  /** No batch is booked: take a fresh one. */
  function PushFresh(bs: BatchSize, st: Stage, m: Msg, qos: QoS, env: Env): (Stage, SendResult)
  {
    if env.grants == 0 then (st, Failed(env.denial))
    else
      var s := NextSeq(SeqOf(st, qos.cc));
      var b := FrameBatch(qos, s, [m]);
      if Fits(bs, b) then Finish(SetSeq(st, qos.cc, s).(open := Some(b)), qos.express, env)
      else PushFragments(bs, st, m, qos, env.(grants := env.grants - 1))
  }

  /** Append to the booked frame when the congestion control matches and the message fits; else flush it and start
      over. */
  function Push(bs: BatchSize, st: Stage, m: Msg, qos: QoS, env: Env): (Stage, SendResult)
  {
    if st.open.None? then PushFresh(bs, st, m, qos, env)
    else if st.open.value.FrameBatch? && st.open.value.qos.cc == qos.cc && Fits(bs, Append(st.open.value, m)) then
      Finish(st.(open := Some(Append(st.open.value, m))), qos.express, env)
    else if env.notifies == 0 then (Commit(st), Failed(Closed))
    else PushFresh(bs, Commit(st), m, qos, env.(notifies := env.notifies - 1))
  }

  // ---- shape of a fragmented message -----------------------------------------------------------

  function SeqPlus(s: SeqNum, i: nat): SeqNum
  {
    (s + i) % SEQ_MOD
  }

  function Payloads(bs: seq<Batch>): seq<byte>
    requires forall i :: 0 <= i < |bs| ==> bs[i].FragBatch?
  {
    if bs == [] then [] else bs[0].payload + Payloads(bs[1..])
  }

  lemma SeqPlusStep(s: SeqNum, i: nat)
    ensures SeqPlus(s, 0) == s && SeqPlus(NextSeq(s), i) == SeqPlus(s, i + 1)
  {}

  /** Fragment i of n (the first one included when `lead`): its headers. */
  predicate FragAt(b: Batch, qos: QoS, s: SeqNum, id: SeqNum, lead: bool, i: nat, n: nat)
  {
    && b.FragBatch? && b.qos == qos && b.fragId == id && b.seqNum == SeqPlus(s, i)
    && b.kind == if i == 0 && lead then First else if i + 1 == n then Last else More
  }

  lemma {:induction false} RestHeaders(bs: BatchSize, qos: QoS, s: SeqNum, id: SeqNum, data: seq<byte>)
    ensures var l := RestFragments(bs, qos, s, id, data);
            l != [] && forall i :: 0 <= i < |l| ==> FragAt(l[i], qos, s, id, false, i, |l|)
    decreases |data|
  {
    hide EncodeHeader, NextSeq, SeqPlus;
    var room := bs - FragHeaderLen(qos, s, More, id);
    var l := RestFragments(bs, qos, s, id, data);
    SeqPlusStep(s, 0);
    if room < |data| {
      var r := RestFragments(bs, qos, NextSeq(s), id, data[room..]);
      RestHeaders(bs, qos, NextSeq(s), id, data[room..]);
      forall i | 1 <= i < |l| ensures FragAt(l[i], qos, s, id, false, i, |l|) {
        assert l[i] == r[i - 1];
        SeqPlusStep(s, i - 1);
      }
    }
  }

  lemma {:induction false} RestSizes(bs: BatchSize, qos: QoS, s: SeqNum, id: SeqNum, data: seq<byte>)
    ensures var l := RestFragments(bs, qos, s, id, data);
            && (forall i :: 0 <= i < |l| - 1 ==> |Wire(l[i])| == bs)
            && |Wire(l[|l| - 1])| <= bs
            && (data != [] ==> forall i :: 0 <= i < |l| ==> l[i].FragBatch? && l[i].payload != [])
    decreases |data|
  {
    hide Wire, FragHeaderLen, NextSeq;
    var room := bs - FragHeaderLen(qos, s, More, id);
    var l := RestFragments(bs, qos, s, id, data);
    if room >= |data| {
      FragWireLen(qos, s, Last, id, data);
      SameHeaderLen(qos, s, id, Last, More);
    } else {
      var r := RestFragments(bs, qos, NextSeq(s), id, data[room..]);
      FragWireLen(qos, s, More, id, data[..room]);
      RestSizes(bs, qos, NextSeq(s), id, data[room..]);
      RestHeaders(bs, qos, NextSeq(s), id, data[room..]);
      hide RestFragments;
      assert |l| == |r| + 1 && l[|l| - 1] == r[|r| - 1];
      assert forall i :: 1 <= i < |l| ==> l[i] == r[i - 1];
    }
  }

  lemma FragWireLen(qos: QoS, s: SeqNum, k: Kind, id: SeqNum, payload: seq<byte>)
    ensures |Wire(FragBatch(qos, s, k, id, payload))| == FragHeaderLen(qos, s, k, id) + |payload|
  {}

  lemma SameHeaderLen(qos: QoS, s: SeqNum, id: SeqNum, k: Kind, k': Kind)
    ensures FragHeaderLen(qos, s, k, id) == FragHeaderLen(qos, s, k', id)
  {}

  lemma {:induction false} RestPayloads(bs: BatchSize, qos: QoS, s: SeqNum, id: SeqNum, data: seq<byte>)
    ensures var l := RestFragments(bs, qos, s, id, data);
            (forall i :: 0 <= i < |l| ==> l[i].FragBatch?) && Payloads(l) == data
    decreases |data|
  {
    var room := bs - FragHeaderLen(qos, s, More, id);
    var l := RestFragments(bs, qos, s, id, data);
    if room >= |data| {
      assert l[1..] == [];
    } else {
      RestPayloads(bs, qos, NextSeq(s), id, data[room..]);
      assert l[1..] == RestFragments(bs, qos, NextSeq(s), id, data[room..]);
      assert data == data[..room] + data[room..];
    }
  }

  /** An oversized message becomes First, More*, exactly one Last, with consecutive sequence numbers and one id; every
      fragment but the last fills the batch exactly, the last at most; at least one byte is left after the first; and
      the payloads put together are the length followed by the message. */
  lemma FragmentShape(bs: BatchSize, qos: QoS, s: SeqNum, id: SeqNum, m: Msg)
    requires !Fits(bs, FrameBatch(qos, s, [m]))
    ensures var l := FragmentsOf(bs, qos, s, id, m);
            && |l| >= 2
            && (forall i :: 0 <= i < |l| ==> FragAt(l[i], qos, s, id, true, i, |l|))
            && (forall i :: 0 <= i < |l| - 1 ==> |Wire(l[i])| == bs)
            && |Wire(l[|l| - 1])| <= bs
            && (forall i :: 1 <= i < |l| ==> l[i].payload != [])
            && Payloads(l) == EncodeMsg(m)
  {
    hide Wire, EncodeMsg, NextSeq, SeqPlus, FragHeaderLen, RestFragments;
    OversizedLeavesRest(bs, qos, s, id, m);
    var data := EncodeMsg(m);
    var room := bs - FragHeaderLen(qos, s, First, id);
    var l := Fragments(bs, qos, s, id, data);
    var r := RestFragments(bs, qos, NextSeq(s), id, data[room..]);
    RestHeaders(bs, qos, NextSeq(s), id, data[room..]);
    RestSizes(bs, qos, NextSeq(s), id, data[room..]);
    RestPayloads(bs, qos, NextSeq(s), id, data[room..]);
    FragWireLen(qos, s, First, id, data[..room]);
    assert l[1..] == r && |l| == |r| + 1;
    assert data == data[..room] + data[room..];
    SeqPlusStep(s, 0);
    hide Fragments, Payloads;
    forall i | 1 <= i < |l| ensures FragAt(l[i], qos, s, id, true, i, |l|) && l[i] == r[i - 1] {
      assert l[i] == r[i - 1];
      SeqPlusStep(s, i - 1);
    }
    PayloadsCons(l, r);
  }

  lemma PayloadsCons(l: seq<Batch>, r: seq<Batch>)
    requires l != [] && l[1..] == r && forall i :: 0 <= i < |l| ==> l[i].FragBatch?
    ensures Payloads(l) == l[0].payload + Payloads(r)
  {}

  // ---- the invariant of a free lock ------------------------------------------------------------

  /** A committed or booked batch of priority p: a frame of whole messages, or one fragment; never more than a batch. */
  predicate GoodBatch(bs: BatchSize, p: Priority, b: Batch)
  {
    b.qos.priority == p && |Wire(b)| <= bs && (b.FrameBatch? ==> b.msgs != [])
  }

  /** Whenever the lock is free the booked batch, if any, is one frame of one or more whole messages. */
  ghost predicate StageInv(bs: BatchSize, p: Priority, st: Stage)
  {
    && (st.open.Some? ==> st.open.value.FrameBatch? && GoodBatch(bs, p, st.open.value))
    && (st.open.Some? ==> st.open.value.seqNum == SeqOf(st, st.open.value.qos.cc))
    && (forall i :: 0 <= i < |st.out| ==> GoodBatch(bs, p, st.out[i]))
  }

  lemma CommitKeepsInv(bs: BatchSize, p: Priority, st: Stage)
    requires StageInv(bs, p, st)
    ensures StageInv(bs, p, Commit(st))
  {
    hide GoodBatch;
  }

  lemma PushFreshKeeps(bs: BatchSize, p: Priority, st: Stage, m: Msg, qos: QoS, env: Env)
    requires StageInv(bs, p, st) && qos.priority == p && st.open.None?
    ensures StageInv(bs, p, PushFresh(bs, st, m, qos, env).0)
  {
    hide Wire, Fragments, FragHeaderLen;
    var s := NextSeq(SeqOf(st, qos.cc));
    if env.grants > 0 && !Fits(bs, FrameBatch(qos, s, [m])) {
      FragmentShape(bs, qos, s, NextSeq(st.fragId), m);
      var l := FragmentsOf(bs, qos, s, NextSeq(st.fragId), m);
      hide FragmentsOf, FragAt;
      GoodFragments(bs, qos.priority, l, qos, s, NextSeq(st.fragId));
    }
  }

  lemma GoodFragments(bs: BatchSize, p: Priority, l: seq<Batch>, qos: QoS, s: SeqNum, id: SeqNum)
    requires l != [] && qos.priority == p && forall i :: 0 <= i < |l| ==> FragAt(l[i], qos, s, id, true, i, |l|)
    requires (forall i :: 0 <= i < |l| - 1 ==> |Wire(l[i])| == bs) && |Wire(l[|l| - 1])| <= bs
    ensures forall i :: 0 <= i < |l| ==> GoodBatch(bs, p, l[i])
  {
    hide Wire, SeqPlus;
  }

  /** Every push, successful or not, leaves the lock with a well-formed booked frame and well-formed committed
      batches. */
  lemma PushKeepsInv(bs: BatchSize, p: Priority, st: Stage, m: Msg, qos: QoS, env: Env)
    requires StageInv(bs, p, st) && qos.priority == p
    ensures StageInv(bs, p, Push(bs, st, m, qos, env).0)
  {
    hide Wire, PushFresh;
    if st.open.None? {
      PushFreshKeeps(bs, p, st, m, qos, env);
    } else if !(st.open.value.qos.cc == qos.cc && Fits(bs, Append(st.open.value, m))) && env.notifies > 0 {
      PushFreshKeeps(bs, p, Commit(st), m, qos, env.(notifies := env.notifies - 1));
    }
  }
}
