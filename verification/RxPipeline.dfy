/** src/pipeline/rx.rs, imperative: reassembly buffers, the four receive lanes, and the two ends of the pipeline.
    Every method is proved equal to its function in RxSpec. */
module RxPipeline {
  import opened Base
  import opened BytesBuf
  import opened Codec
  import RxSpec

  class DefragBuffer {
    var seqNum: SeqNum
    var fragId: SeqNum
    var buffer: Bytes

    ghost function Abs(): RxSpec.Defrag
      reads this
    {
      RxSpec.Defrag(seqNum, fragId, Flat(buffer))
    }

    ghost predicate Valid()
      reads this
    {
      NoEmptyChunk(buffer)
    }

    constructor ()
      ensures Valid() && Abs() == RxSpec.NEW_DEFRAG
    {
      seqNum, fragId, buffer := 0, 0, [];
    }

    /** Keeps the expected numbers. */
    method Clear()
      modifies this
      ensures Valid() && Abs() == old(Abs()).(buf := [])
    {
      buffer := [];
    }

    method Sync(s: SeqNum, id: SeqNum)
      modifies this
      ensures buffer == old(buffer) && Abs() == RxSpec.Defrag(s, id, old(Abs()).buf)
    {
      seqNum, fragId := s, id;
    }

    method Extend(s: SeqNum, id: SeqNum, bytes: Bytes, cap: nat) returns (err: Option<RxSpec.RxError>)
      modifies this
      ensures (Abs(), err) == RxSpec.Extend(old(Abs()), s, id, Flat(bytes), cap)
      ensures old(Valid()) && NoEmptyChunk(bytes) ==> Valid()
    {
      if s != seqNum { return Some(RxSpec.InvalidSeqNum); }
      if id != fragId { return Some(RxSpec.InvalidFragId); }
      LenIsFlat(buffer);
      LenIsFlat(bytes);
      if Len(buffer) + Len(bytes) > cap { return Some(RxSpec.CapacityLimit); }
      FlatAppend(buffer, bytes);
      seqNum := NextSeq(seqNum);
      buffer := buffer + bytes;
      err := None;
    }

    method Take() returns (bytes: Bytes)
      modifies this
      ensures Valid() && Flat(bytes) == old(Abs()).buf && Abs() == old(Abs()).(buf := [])
      ensures old(Valid()) ==> NoEmptyChunk(bytes)
    {
      bytes, buffer := buffer, [];
    }

    /** The three fragment arms of `PipelineRxIn::push`. */
    method Feed(qos: QoS, s: SeqNum, kind: Kind, id: SeqNum, bytes: Bytes, cap: nat) returns (r: Received)
      modifies this
      ensures Placed(r) && (Abs(), AcceptOf(r)) == RxSpec.Fragment(old(Abs()), qos, s, kind, id, Flat(bytes), cap)
      ensures old(Valid()) && NoEmptyChunk(bytes) ==> Valid() && GoodReceived(r)
    {
      hide Flat, ItemOf;
      match kind
      case First =>
        Clear();
        Sync(s, id);
        var err := Extend(s, id, bytes, cap);
        r := if err.Some? then Refused(err.value) else Stored;
      case More =>
        var err := Extend(s, id, bytes, cap);
        if err.Some? {
          Clear();
          return Refused(err.value);
        }
        r := Stored;
      case Last =>
        var err := Extend(s, id, bytes, cap);
        if err.Some? {
          return Refused(err.value);
        }
        var whole := Take();
        FreshBatch(whole, qos);
        r := Queue(ReadBatch(whole, qos, BytesPos(0, 0)));
    }
  }

  /** A queued batch and the place its next message starts. */
  datatype ReadBatch = ReadBatch(bytes: Bytes, qos: QoS, pos: BytesPos)

  datatype Received = Queue(batch: ReadBatch) | Stored | Refused(error: RxSpec.RxError)

  ghost predicate GoodBatch(b: ReadBatch)
  {
    NoEmptyChunk(b.bytes) && ValidPos(b.bytes, b.pos) && NormalPos(b.bytes, b.pos)
  }

  /** The saved position lies in the batch. */
  ghost predicate Placed(r: Received)
  {
    r.Queue? ==> ValidPos(r.batch.bytes, r.batch.pos)
  }

  ghost predicate GoodReceived(r: Received)
  {
    r.Queue? ==> GoodBatch(r.batch)
  }

  /** The bytes from the saved position on. */
  ghost function ItemOf(b: ReadBatch): RxSpec.Item
    requires ValidPos(b.bytes, b.pos)
  {
    PosSplit(b.bytes, b.pos);
    RxSpec.Item(b.qos, Flat(b.bytes)[AbsPos(b.bytes, b.pos)..])
  }

  ghost function AcceptOf(r: Received): RxSpec.Accept
    requires Placed(r)
  {
    match r
    case Queue(b) => RxSpec.Queue(ItemOf(b))
    case Stored => RxSpec.Stored
    case Refused(e) => RxSpec.Refused(e)
  }

  lemma FreshBatch(bytes: Bytes, qos: QoS)
    ensures ValidPos(bytes, BytesPos(0, 0))
    ensures NoEmptyChunk(bytes) ==> GoodBatch(ReadBatch(bytes, qos, BytesPos(0, 0)))
    ensures ItemOf(ReadBatch(bytes, qos, BytesPos(0, 0))) == RxSpec.Item(qos, Flat(bytes))
  {
    assert bytes[..0] == [];
    assert AbsPos(bytes, BytesPos(0, 0)) == 0;
  }

  ghost predicate GoodLane(lane: seq<ReadBatch>)
  {
    forall i :: 0 <= i < |lane| ==> GoodBatch(lane[i])
  }

  ghost function Items(lane: seq<ReadBatch>): (r: seq<RxSpec.Item>)
    requires GoodLane(lane)
    ensures |r| == |lane| && forall i :: 0 <= i < |r| ==> r[i] == ItemOf(lane[i])
  {
    seq(|lane|, i requires 0 <= i < |lane| => ItemOf(lane[i]))
  }

  lemma NoItems()
    ensures GoodLane([]) && Items([]) == []
  {}

  lemma ItemsPush(lane: seq<ReadBatch>, b: ReadBatch)
    requires GoodLane(lane) && GoodBatch(b)
    ensures GoodLane(lane + [b]) && Items(lane + [b]) == Items(lane) + [ItemOf(b)]
  {}

  lemma ItemsTail(lane: seq<ReadBatch>)
    requires GoodLane(lane) && lane != []
    ensures GoodLane(lane[1..]) && Items(lane[1..]) == Items(lane)[1..]
  {}

  /** One buffer per priority. */
  method FreshBuffers() returns (s: seq<DefragBuffer>)
    ensures |s| == 4 && fresh(s[0]) && fresh(s[1]) && fresh(s[2]) && fresh(s[3])
    ensures forall p: nat, q: nat :: p < q < 4 ==> s[p] != s[q]
    ensures forall p: nat :: p < 4 ==> s[p].Valid() && s[p].Abs() == RxSpec.NEW_DEFRAG
  {
    hide Flat;
    var b0 := new DefragBuffer();
    var b1 := new DefragBuffer();
    var b2 := new DefragBuffer();
    var b3 := new DefragBuffer();
    s := [b0, b1, b2, b3];
  }

  class PipelineRx {
    var lanes: seq<seq<ReadBatch>>
    var congested: seq<bool>
    const block: seq<DefragBuffer>
    const drop: seq<DefragBuffer>
    const size: nat

    ghost predicate Shape()
      reads this
    {
      && |lanes| == 4 && |congested| == 4 && |block| == 4 && |drop| == 4
      && (forall p: nat, q: nat :: p < q < 4 ==> block[p] != block[q] && drop[p] != drop[q])
      && (forall p: nat, q: nat :: p < 4 && q < 4 ==> block[p] != drop[q])
    }

    ghost predicate Valid()
      reads this, block, drop
    {
      && Shape()
      && (forall p: nat :: p < 4 ==> GoodLane(lanes[p]))
      && (forall p: nat :: p < 4 ==> block[p].Valid() && drop[p].Valid())
    }

    ghost function Abs(): (rx: RxSpec.Rx)
      requires Valid()
      reads this, block, drop
      ensures RxSpec.Shape(rx)
    {
      RxSpec.Rx([Items(lanes[0]), Items(lanes[1]), Items(lanes[2]), Items(lanes[3])],
                [block[0].Abs(), block[1].Abs(), block[2].Abs(), block[3].Abs()],
                [drop[0].Abs(), drop[1].Abs(), drop[2].Abs(), drop[3].Abs()],
                congested)
    }

    constructor (size: nat)
      ensures Valid() && Abs() == RxSpec.INIT_RX
      ensures this.size == size && forall p: nat :: p < 4 ==> fresh(block[p]) && fresh(drop[p])
    {
      hide Flat, ItemOf, Items;
      NoItems();
      var b := FreshBuffers();
      var d := FreshBuffers();
      block := b;
      drop := d;
      lanes := [[], [], [], []];
      congested := [false, false, false, false];
      this.size := size;
    }

    /** The receiving half of `push`: header, then by kind. */
    method Receive(bytes: Bytes, cap: nat) returns (r: Received)
      requires Valid() && NoEmptyChunk(bytes)
      modifies block, drop
      ensures Valid() && GoodReceived(r)
      ensures (Abs(), AcceptOf(r)) == RxSpec.Receive(old(Abs()), Flat(bytes), cap)
    {
      hide Flat, DecodeHeader, RxSpec.Fragment, ItemOf;
      var reader := new BytesReader(bytes);
      StartNormal(bytes);
      assert Flat(bytes)[0..] == Flat(bytes);
      var header := ReadHeader(reader);
      if header.None? {
        return Refused(RxSpec.DecodingFailed);
      }
      var h := header.value;
      var remaining := reader.Remaining();
      LenIsFlat(bytes);
      var start := Len(bytes) - remaining;
      if h.body.Frame? {
        r := Queue(ReadBatch(bytes, h.qos, reader.cursor));
        MarkedBatch(bytes, h.qos, reader.cursor);
        return;
      }
      var view := View(bytes, start, Len(bytes));
      assert Flat(view.value) == Flat(bytes)[start..];
      r := FeedFragment(h, view.value, cap);
    }

    /** Fragments go to the buffer of their priority and congestion class. */
    method FeedFragment(h: Header, bytes: Bytes, cap: nat) returns (r: Received)
      requires Valid() && NoEmptyChunk(bytes) && h.body.Fragment?
      modifies block, drop
      ensures Valid() && GoodReceived(r)
      ensures var (d, a) := RxSpec.Fragment(RxSpec.DefragOf(old(Abs()), h.qos), h.qos, h.seqNum, h.body.kind,
              h.body.fragId,
                                            Flat(bytes), cap);
              Abs() == RxSpec.SetDefrag(old(Abs()), h.qos, d) && AcceptOf(r) == a
    {
      hide Flat, RxSpec.Fragment, ItemOf, Items, GoodBatch;
      var p := h.qos.priority;
      if h.qos.cc.Block? {
        r := block[p].Feed(h.qos, h.seqNum, h.body.kind, h.body.fragId, bytes, cap);
      } else {
        r := drop[p].Feed(h.qos, h.seqNum, h.body.kind, h.body.fragId, bytes, cap);
      }
    }

    /** `writer.push` on the lane of the batch; false gives the batch back. */
    method Offer(batch: ReadBatch) returns (ok: bool)
      requires Valid() && GoodBatch(batch)
      modifies this
      ensures Valid() && (Abs(), ok) == RxSpec.Offer(old(Abs()), ItemOf(batch), size)
    {
      hide ItemOf, GoodBatch, Items;
      var p := batch.qos.priority;
      SameQos(batch);
      ItemsPush(lanes[p], batch);
      ghost var before := Abs();
      assert before.lanes[p] == Items(lanes[p]);
      ok := |lanes[p]| < size;
      if ok {
        lanes := lanes[p := lanes[p] + [batch]];
        assert Abs().lanes == before.lanes[p := before.lanes[p] + [ItemOf(batch)]];
      }
    }

    /** Removes what `peek_mut` showed. */
    method DropHead(p: Priority)
      requires Valid() && lanes[p] != []
      modifies this
      ensures Valid() && Abs() == RxSpec.DropHead(old(Abs()), p) && |lanes[p]| < old(|lanes[p]|)
      ensures forall q: nat :: q < 4 && q != p ==> lanes[q] == old(lanes[q])
    {
      hide ItemOf, GoodBatch, Items;
      var head := lanes[p][0];
      ItemsTail(lanes[p]);
      SameQos(head);
      congested := congested[head.qos.priority := false];
      lanes := lanes[p := lanes[p][1..]];
    }

    /** Reads the next message of a lane's head and saves the position after it. */
    method ReadNext(p: Priority) returns (r: Option<Bytes>)
      requires Valid() && lanes[p] != []
      modifies this
      ensures Valid() && lanes[p] != []
      ensures var head := old(Abs()).lanes[p][0];
              match DecodeMsg(head.rest)
              case None => r.None? && lanes == old(lanes) && congested == old(congested)
              case Some((m, n)) =>
                r.Some? && Flat(r.value) == m
                && Abs() == old(Abs()).(
                     lanes := old(Abs()).lanes[p := old(Abs()).lanes[p][0 := head.(rest := head.rest[n..])]])
    {
      hide Flat, DecodeMsg, ItemOf, Items, GoodBatch;
      var batch := lanes[p][0];
      ghost var before := Abs();
      assert before.lanes[p] == Items(lanes[p]);
      var m, next := ReadBatchNext(batch);
      if m.Some? {
        SameQos(next);
        ItemsHead(lanes[p], next);
        lanes := lanes[p := lanes[p][0 := next]];
        assert Abs().lanes == before.lanes[p := before.lanes[p][0 := ItemOf(next)]];
      }
      r := m;
    }

    /** `peek_mut` and `pull` both scan from the highest priority. */
    method HighestLane() returns (r: Option<Priority>)
      requires Valid()
      ensures r == RxSpec.Highest(Abs().lanes)
    {
      var p := 0;
      while p < 4
        invariant p <= 4 && forall q: nat :: q < p ==> lanes[q] == []
      {
        if lanes[p] != [] {
          return Some(p);
        }
        p := p + 1;
      }
      r := None;
    }

    /** Clears a congestion flag and tells whether it was set. */
    method Unset(p: Priority) returns (was: bool)
      requires Valid()
      modifies this
      ensures Valid() && lanes == old(lanes) && was == old(congested[p])
      ensures Abs() == old(Abs()).(congested := old(Abs()).congested[p := false])
    {
      hide Items;
      was := congested[p];
      congested := congested[p := false];
    }

    method TryPull() returns (r: Option<(Bytes, QoS)>)
      requires Valid()
      modifies this
      ensures Valid()
      ensures r.Some? ==> |Flat(r.value.0)| < TWO64
      ensures (Abs(), if r.Some? then Some((Flat(r.value.0), r.value.1)) else None) == RxSpec.TryPull(old(Abs()))
    {
      hide Flat, DecodeMsg, ItemOf, Items, GoodBatch, GoodLane, RxSpec.Highest;
      ghost var before := Abs();
      while true
        invariant Valid() && RxSpec.TryPull(Abs()) == RxSpec.TryPull(before)
        decreases RxSpec.Total(Abs().lanes)
      {
        ghost var now := Abs();
        var at := HighestLane();
        if at.None? {
          return None;
        }
        var p := at.value;
        var batch := lanes[p][0];
        assert now.lanes[p] == Items(lanes[p]);
        HeadOf(lanes[p]);
        var isCongested := Unset(batch.qos.priority);
        if isCongested && batch.qos.cc.Drop? {
          DropHead(p);
          assert Abs() == RxSpec.DropHead(now, p);
          continue;
        }
        var m := ReadNext(p);
        if m.Some? {
          return Some((m.value, batch.qos));
        }
        DropHead(p);
        assert Abs() == RxSpec.DropHead(now, p);
      }
    }

    /** The other task pulling n times while a push waits. */
    method PullMany(n: nat) returns (ghost ms: seq<(Msg, QoS)>)
      requires Valid()
      modifies this
      ensures Valid() && (Abs(), ms) == RxSpec.Pulls(old(Abs()), n)
      decreases n
    {
      hide Flat, RxSpec.TryPull, Items, GoodLane;
      ms := [];
      if n > 0 {
        var r := TryPull();
        ms := PullMany(n - 1);
        ms := (if r.Some? then [(Flat(r.value.0), r.value.1)] else []) + ms;
      }
    }

    /** `status.set(congested(p))`. */
    method SetCongested(p: Priority)
      requires Valid()
      modifies this
      ensures Valid() && Abs() == RxSpec.SetCongested(old(Abs()), p)
    {
      hide Items;
      congested := congested[p := true];
    }

    /** What follows a refused attempt; None asks for another. */
    method Refusal(batch: ReadBatch, turn: RxSpec.Turn) returns (ghost ms: seq<(Msg, QoS)>, end: Option<RxSpec.Pushed>)
      requires Valid() && GoodBatch(batch)
      modifies this
      ensures Valid() && (Abs(), ms, end) == RxSpec.Refusal(old(Abs()), ItemOf(batch), turn)
    {
      SameQos(batch);
      hide Flat, Items, GoodLane, GoodBatch, ItemOf, RxSpec.Pulls;
      var p := batch.qos.priority;
      ms := PullMany(turn.pulls);
      if batch.qos.cc.Drop? && congested[p] {
        return ms, Some(RxSpec.Congested);
      }
      if turn.wait.Expired? {
        return ms, Some(RxSpec.Failed(RxSpec.TimedOut));
      }
      if turn.wait.Gone? {
        return ms, Some(RxSpec.Failed(RxSpec.ChannelClosed));
      }
      ghost var late := PullMany(turn.wait.pulls);
      ms, end := ms + late, None;
      if turn.wait.Elapsed? {
        SetCongested(p);
        if batch.qos.cc.Drop? {
          end := Some(RxSpec.Congested);
        }
      }
    }

    /** The queueing loop of `push`; `turns` says how each wait for room ends. */
    method Enqueue(batch: ReadBatch, turns: seq<RxSpec.Turn>) returns (ghost ms: seq<(Msg, QoS)>, r: RxSpec.Pushed)
      requires Valid() && GoodBatch(batch)
      modifies this
      ensures Valid() && (Abs(), ms, r) == RxSpec.Enqueue(old(Abs()), ItemOf(batch), size, turns)
    {
      SameQos(batch);
      hide Flat, Items, GoodLane, GoodBatch, ItemOf, RxSpec.Refusal, RxSpec.Offer;
      ghost var item, before := ItemOf(batch), Abs();
      var i := 0;
      ms := [];
      assert turns[0..] == turns;
      EnqueueStart(before, item, size, turns);
      while true
        invariant Valid() && i <= |turns|
        invariant RxSpec.Enqueue(before, item, size, turns) ==
                  Prepended(ms, RxSpec.Enqueue(Abs(), item, size, turns[i..]))
        decreases |turns| - i
      {
        assert ms + [] == ms;
        var ok := Offer(batch);
        if ok {
          return ms, RxSpec.Accepted;
        }
        if i == |turns| {
          r := if batch.qos.cc.Drop? && congested[batch.qos.priority] then RxSpec.Congested
               else RxSpec.Failed(RxSpec.TimedOut);
          return;
        }
        ghost var more;
        var end;
        more, end := Refusal(batch, turns[i]);
        i := i + 1;
        assert turns[i - 1..][1..] == turns[i..];
        PrependedTwice(ms, more, RxSpec.Enqueue(Abs(), item, size, turns[i..]));
        ms := ms + more;
        if end.Some? {
          return ms, end.value;
        }
      }
    }
  }

  ghost function Prepended(ms: seq<(Msg, QoS)>, r: (RxSpec.Rx, seq<(Msg, QoS)>, RxSpec.Pushed)):
    (RxSpec.Rx, seq<(Msg, QoS)>, RxSpec.Pushed)
  {
    (r.0, ms + r.1, r.2)
  }

  lemma PrependedTwice(a: seq<(Msg, QoS)>, b: seq<(Msg, QoS)>, r: (RxSpec.Rx, seq<(Msg, QoS)>, RxSpec.Pushed))
    ensures Prepended(a, Prepended(b, r)) == Prepended(a + b, r)
  {
    assert a + (b + r.1) == (a + b) + r.1;
  }

  lemma EnqueueStart(rx: RxSpec.Rx, item: RxSpec.Item, size: nat, turns: seq<RxSpec.Turn>)
    requires RxSpec.Shape(rx)
    ensures RxSpec.Enqueue(rx, item, size, turns) == Prepended([], RxSpec.Enqueue(rx, item, size, turns))
  {
    var r := RxSpec.Enqueue(rx, item, size, turns);
    assert [] + r.1 == r.1;
  }

  /** Reading a message from a saved position. */
  method ReadBatchNext(batch: ReadBatch) returns (m: Option<Bytes>, next: ReadBatch)
    requires GoodBatch(batch)
    ensures GoodBatch(next)
    ensures match DecodeMsg(ItemOf(batch).rest)
            case None => m.None?
            case Some((v, n)) =>
              m.Some? && Flat(m.value) == v && ItemOf(next) == ItemOf(batch).(rest := ItemOf(batch).rest[n..])
  {
    hide Flat, DecodeMsg;
    next := batch;
    var reader := new BytesReader(batch.bytes);
    var sought := reader.SeekMark(batch.pos);
    MarkedBatch(batch.bytes, batch.qos, batch.pos);
    if !sought {
      PosSplit(batch.bytes, batch.pos);
      assert ItemOf(batch).rest == [];
      NothingDecodes();
      return None, next;
    }
    m := ReadMsg(reader);
    if m.Some? {
      next := batch.(pos := reader.cursor);
      MarkedBatch(batch.bytes, batch.qos, reader.cursor);
    }
  }

  lemma NothingDecodes()
    ensures DecodeMsg([]).None?
  {}

  lemma ItemsHead(lane: seq<ReadBatch>, b: ReadBatch)
    requires GoodLane(lane) && lane != [] && GoodBatch(b)
    ensures GoodLane(lane[0 := b]) && Items(lane[0 := b]) == Items(lane)[0 := ItemOf(b)]
  {}

  lemma HeadOf(lane: seq<ReadBatch>)
    requires GoodLane(lane) && lane != []
    ensures GoodBatch(lane[0]) && Items(lane)[0] == ItemOf(lane[0]) && ItemOf(lane[0]).qos == lane[0].qos
  {}

  lemma SameQos(b: ReadBatch)
    requires GoodBatch(b)
    ensures ValidPos(b.bytes, b.pos) && ItemOf(b).qos == b.qos
  {}

  lemma StartNormal(bytes: Bytes)
    requires NoEmptyChunk(bytes)
    ensures NormalPos(bytes, BytesPos(0, 0))
  {}

  lemma MarkedBatch(bytes: Bytes, qos: QoS, pos: BytesPos)
    requires NoEmptyChunk(bytes) && ValidPos(bytes, pos) && NormalPos(bytes, pos)
    ensures GoodBatch(ReadBatch(bytes, qos, pos))
    ensures AbsPos(bytes, pos) <= |Flat(bytes)|
    ensures ItemOf(ReadBatch(bytes, qos, pos)) == RxSpec.Item(qos, Flat(bytes)[AbsPos(bytes, pos)..])
  {
    PosSplit(bytes, pos);
  }
}
