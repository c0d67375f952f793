/** src/pipeline/rx.rs as functions on bytes: reassembly, queueing by priority, delivery in strict priority order. */
module RxSpec {
  import opened Base
  import opened Codec

  /** `DefragBuffer`. */
  datatype Defrag = Defrag(seqNum: SeqNum, fragId: SeqNum, buf: seq<byte>)
  const NEW_DEFRAG := Defrag(0, 0, [])

  /** The undelivered part of a `ReadBatch`: the bytes from its saved position on. */
  datatype Item = Item(qos: QoS, rest: seq<byte>)

  datatype RxError = DecodingFailed | InvalidSeqNum | InvalidFragId | CapacityLimit | ChannelClosed | TimedOut

  /** What a received batch leads to: something to queue, a fragment kept for later, or an error. */
  datatype Accept = Queue(item: Item) | Stored | Refused(error: RxError)

  /** Four lanes, four reassembly buffers per congestion class, four congestion flags. */
  datatype Rx = Rx(lanes: seq<seq<Item>>, block: seq<Defrag>, drop: seq<Defrag>, congested: seq<bool>)

  predicate Shape(rx: Rx)
  {
    |rx.lanes| == 4 && |rx.block| == 4 && |rx.drop| == 4 && |rx.congested| == 4
  }

  const INIT_RX := Rx([[], [], [], []], [NEW_DEFRAG, NEW_DEFRAG, NEW_DEFRAG, NEW_DEFRAG],
                     [NEW_DEFRAG, NEW_DEFRAG, NEW_DEFRAG, NEW_DEFRAG], [false, false, false, false])

  // ---- reassembly ------------------------------------------------------------------------------

  /** `extend`: refuses anything but the expected fragment, and a message beyond the capacity. */
  function Extend(d: Defrag, s: SeqNum, id: SeqNum, data: seq<byte>, cap: nat): (Defrag, Option<RxError>)
  {
    if s != d.seqNum then (d, Some(InvalidSeqNum))
    else if id != d.fragId then (d, Some(InvalidFragId))
    else if |d.buf| + |data| > cap then (d, Some(CapacityLimit))
    else (Defrag(NextSeq(d.seqNum), d.fragId, d.buf + data), None)
  }

  /** A fragment: First resynchronises, More discards the partial message on an error, Last does not. */
  function Fragment(d: Defrag, qos: QoS, s: SeqNum, kind: Kind, id: SeqNum, data: seq<byte>, cap: nat): (Defrag, Accept)
  {
    var (e, err) := Extend(if kind.First? then Defrag(s, id, []) else d, s, id, data, cap);
    match kind
    case First => (e, if err.Some? then Refused(err.value) else Stored)
    case More => if err.Some? then (e.(buf := []), Refused(err.value)) else (e, Stored)
    case Last => if err.Some? then (e, Refused(err.value)) else (e.(buf := []), Queue(Item(qos, e.buf)))
  }

  function DefragOf(rx: Rx, q: QoS): Defrag
    requires Shape(rx)
  {
    if q.cc.Block? then rx.block[q.priority] else rx.drop[q.priority]
  }

  function SetDefrag(rx: Rx, q: QoS, d: Defrag): Rx
    requires Shape(rx)
  {
    if q.cc.Block? then rx.(block := rx.block[q.priority := d]) else rx.(drop := rx.drop[q.priority := d])
  }

  /** The receiving half of `PipelineRxIn::push`, up to the queue. */
  function Receive(rx: Rx, bytes: seq<byte>, cap: nat): (Rx, Accept)
    requires Shape(rx)
  {
    match DecodeHeader(bytes)
    case None => (rx, Refused(DecodingFailed))
    case Some((h, n)) =>
      if h.body.Frame? then (rx, Queue(Item(h.qos, bytes[n..])))
      else
        var (d, a) := Fragment(DefragOf(rx, h.qos), h.qos, h.seqNum, h.body.kind, h.body.fragId, bytes[n..], cap);
        (SetDefrag(rx, h.qos, d), a)
  }

  /** One attempt to queue an item on the lane of its priority; it is given back when the lane is full. */
  function Offer(rx: Rx, item: Item, size: nat): (Rx, bool)
    requires Shape(rx)
  {
    var p := item.qos.priority;
    if |rx.lanes[p]| >= size then (rx, false) else (rx.(lanes := rx.lanes[p := rx.lanes[p] + [item]]), true)
  }

  // ---- delivery --------------------------------------------------------------------------------

  /** The highest lane that holds something: what `peek_mut` and `pull` look at. */
  function Highest(lanes: seq<seq<Item>>): (r: Option<Priority>)
    requires |lanes| == 4
    ensures r.Some? ==> lanes[r.value] != [] && forall q: nat :: q < r.value ==> lanes[q] == []
    ensures r.None? ==> forall q: nat :: q < 4 ==> lanes[q] == []
  {
    if lanes[0] != [] then Some(0) else if lanes[1] != [] then Some(1)
    else if lanes[2] != [] then Some(2) else if lanes[3] != [] then Some(3) else None
  }

  function Total(lanes: seq<seq<Item>>): nat
    requires |lanes| == 4
  {
    |lanes[0]| + |lanes[1]| + |lanes[2]| + |lanes[3]|
  }

  /** Clears the congestion flag of the head's priority, and drops the head. */
  function DropHead(rx: Rx, p: Priority): Rx
    requires Shape(rx) && rx.lanes[p] != []
  {
    rx.(lanes := rx.lanes[p := rx.lanes[p][1..]], congested := rx.congested[rx.lanes[p][0].qos.priority := false])
  }

  /** `PipelineRxOut::try_pull`: the next message of the highest lane, discarding exhausted, undecodable or congested
      droppable batches on the way. */
  function TryPull(rx: Rx): (Rx, Option<(Msg, QoS)>)
    requires Shape(rx)
    decreases Total(rx.lanes)
  {
    match Highest(rx.lanes)
    case None => (rx, None)
    case Some(p) =>
      var head := rx.lanes[p][0];
      var flag := head.qos.priority;
      if rx.congested[flag] && head.qos.cc.Drop? then TryPull(DropHead(rx, p))
      else
        match DecodeMsg(head.rest)
        case None => TryPull(DropHead(rx, p))
        case Some((m, n)) =>
          (rx.(lanes := rx.lanes[p := rx.lanes[p][0 := head.(rest := head.rest[n..])]],
              congested := rx.congested[flag := false]),
           Some((m, head.qos)))
  }

  // ---- what is waiting -------------------------------------------------------------------------

  /** The messages a lane still has to deliver, in order. */
  function Waiting(lane: seq<Item>): seq<(Msg, QoS)>
  {
    if lane == [] then [] else Tag(ParseAll(lane[0].rest), lane[0].qos) + Waiting(lane[1..])
  }

  function Tag(ms: seq<Msg>, q: QoS): (r: seq<(Msg, QoS)>)
    ensures |r| == |ms|
  {
    if ms == [] then [] else [(ms[0], q)] + Tag(ms[1..], q)
  }

  lemma {:induction false} WaitingAppend(lane: seq<Item>, item: Item)
    ensures Waiting(lane + [item]) == Waiting(lane) + Tag(ParseAll(item.rest), item.qos)
  {
    if lane == [] {
      assert (lane + [item])[1..] == [];
      assert Waiting([item]) == Tag(ParseAll(item.rest), item.qos) + Waiting([]);
    } else {
      assert (lane + [item])[1..] == lane[1..] + [item];
      WaitingAppend(lane[1..], item);
    }
  }

  /** Every queued item sits on the lane of its own priority. */
  predicate Sorted(rx: Rx)
    requires Shape(rx)
  {
    forall p: nat, i: nat :: p < 4 && i < |rx.lanes[p]| ==> rx.lanes[p][i].qos.priority == p
  }

  predicate NoCongestion(rx: Rx)
    requires Shape(rx)
  {
    forall p: nat :: p < 4 ==> !rx.congested[p]
  }

  lemma TagCons(m: Msg, ms: seq<Msg>, q: QoS)
    ensures Tag([m] + ms, q) == [(m, q)] + Tag(ms, q)
  {
    assert ([m] + ms)[1..] == ms;
  }

  lemma {:induction false} TagPush(ms: seq<Msg>, m: Msg, q: QoS)
    ensures Tag(ms + [m], q) == Tag(ms, q) + [(m, q)]
  {
    if ms == [] {
      assert Tag([m], q) == [(m, q)] + Tag([], q);
    } else {
      assert (ms + [m])[1..] == ms[1..] + [m];
      TagPush(ms[1..], m, q);
    }
  }

  lemma DecodedHead(lane: seq<Item>, m: Msg, n: nat)
    requires lane != [] && DecodeMsg(lane[0].rest) == Some((m, n))
    ensures Waiting(lane) == [(m, lane[0].qos)] + Waiting(lane[0 := lane[0].(rest := lane[0].rest[n..])])
  {
    hide DecodeMsg;
    var head := lane[0];
    var next := lane[0 := head.(rest := head.rest[n..])];
    assert next[1..] == lane[1..];
    assert ParseAll(head.rest) == [m] + ParseAll(head.rest[n..]);
    hide ParseAll, Tag;
    TagCons(m, ParseAll(head.rest[n..]), head.qos);
  }

  lemma ExhaustedHead(lane: seq<Item>)
    requires lane != [] && DecodeMsg(lane[0].rest).None?
    ensures Waiting(lane) == Waiting(lane[1..])
  {
    assert ParseAll(lane[0].rest) == [];
  }

  /** Strict priority delivery. Without congestion a call returns exactly the first message waiting on the highest lane
      that has one waiting, takes it out, and leaves what waits on every other lane; it returns nothing only when
      nothing waits anywhere. */
  lemma {:induction false} PullDelivers(rx: Rx)
    requires Shape(rx) && Sorted(rx) && NoCongestion(rx)
    ensures var (rx', r) := TryPull(rx);
            && Shape(rx') && Sorted(rx') && NoCongestion(rx') && rx'.block == rx.block && rx'.drop == rx.drop
            && match r
               case None => forall p: Priority :: Waiting(rx.lanes[p]) == [] && Waiting(rx'.lanes[p]) == []
               case Some((m, q)) =>
                 && (forall p: Priority :: p < q.priority ==> Waiting(rx.lanes[p]) == [])
                 && (forall p: Priority ::
                       Waiting(rx.lanes[p]) == (if p == q.priority then [(m, q)] else []) + Waiting(rx'.lanes[p]))
    decreases Total(rx.lanes)
  {
    hide DecodeMsg, Tag, ParseAll;
    match Highest(rx.lanes)
    case None =>
    case Some(p) =>
      var head := rx.lanes[p][0];
      assert head.qos.priority == p;
      match DecodeMsg(head.rest)
      case None =>
        var rx1 := DropHead(rx, p);
        ExhaustedHead(rx.lanes[p]);
        assert forall q: Priority :: Waiting(rx1.lanes[q]) == Waiting(rx.lanes[q]);
        PullDelivers(rx1);
      case Some((m, n)) =>
        DecodedHead(rx.lanes[p], m, n);
  }

  // ---- delivery under congestion ---------------------------------------------------------------

  /** The messages of a list that may not be dropped. */
  function Blocking(ms: seq<(Msg, QoS)>): seq<(Msg, QoS)>
  {
    if ms == [] then [] else IfBlock(ms[0]) + Blocking(ms[1..])
  }

  function IfBlock(x: (Msg, QoS)): seq<(Msg, QoS)>
  {
    if x.1.cc.Block? then [x] else []
  }

  lemma {:induction false} BlockingAppend(a: seq<(Msg, QoS)>, b: seq<(Msg, QoS)>)
    ensures Blocking(a + b) == Blocking(a) + Blocking(b)
  {
    hide IfBlock;
    if a == [] {
      assert a + b == b;
    } else {
      assert (a + b)[1..] == a[1..] + b;
      BlockingAppend(a[1..], b);
    }
  }

  lemma {:induction false} DroppableTag(ms: seq<Msg>, q: QoS)
    requires q.cc.Drop?
    ensures Blocking(Tag(ms, q)) == []
  {
    if ms != [] {
      assert Tag(ms, q)[1..] == Tag(ms[1..], q);
      DroppableTag(ms[1..], q);
    }
  }

  /** The message a call returned, if it belongs to lane p. */
  function Got(r: Option<(Msg, QoS)>, p: Priority): seq<(Msg, QoS)>
  {
    if r.Some? && r.value.1.priority == p then [r.value] else []
  }

  /** What a lane owes: the undelivered messages that may not be dropped. */
  function Owed(rx: Rx, p: Priority): seq<(Msg, QoS)>
    requires Shape(rx)
  {
    Blocking(Waiting(rx.lanes[p]))
  }

  lemma DroppedHead(lane: seq<Item>)
    requires lane != [] && lane[0].qos.cc.Drop?
    ensures Blocking(Waiting(lane)) == Blocking(Waiting(lane[1..]))
  {
    hide Blocking, Tag, ParseAll;
    DroppableTag(ParseAll(lane[0].rest), lane[0].qos);
    BlockingAppend(Tag(ParseAll(lane[0].rest), lane[0].qos), Waiting(lane[1..]));
  }

  /** Under any congestion, a call owes every lane afterwards exactly what it owed before, less the message it returned;
      it passes over a lane only when that lane owes nothing. Congestion costs droppable messages only. */
  lemma {:induction false} PullKeepsBlocking(rx: Rx)
    requires Shape(rx) && Sorted(rx)
    ensures var (rx', r) := TryPull(rx);
            && Shape(rx') && Sorted(rx') && rx'.block == rx.block && rx'.drop == rx.drop
            && (forall p: Priority :: Owed(rx, p) == Blocking(Got(r, p)) + Owed(rx', p))
            && (forall p: Priority :: r.None? || p < r.value.1.priority ==> Owed(rx, p) == [])
    decreases Total(rx.lanes)
  {
    hide DecodeMsg, Tag, ParseAll, Waiting, Blocking;
    BlockingNone();
    match Highest(rx.lanes)
    case None =>
      WaitingNone();
    case Some(p) =>
      WaitingNone();
      var head := rx.lanes[p][0];
      if rx.congested[p] && head.qos.cc.Drop? {
        DroppedHead(rx.lanes[p]);
        PullKeepsBlocking(DropHead(rx, p));
      } else {
        match DecodeMsg(head.rest)
        case None =>
          ExhaustedHead(rx.lanes[p]);
          PullKeepsBlocking(DropHead(rx, p));
        case Some((m, n)) =>
          DecodedHead(rx.lanes[p], m, n);
          BlockingAppend([(m, head.qos)], Waiting(TryPull(rx).0.lanes[p]));
      }
  }

  lemma BlockingNone()
    ensures Blocking([]) == []
  {}

  lemma WaitingNone()
    ensures Waiting([]) == []
  {}

  // ---- a push that has to wait -----------------------------------------------------------------

  /** How a wait for room ends, and how many pulls the other task managed meanwhile. `Expired`: no time was left. */
  datatype Wait = Expired | Woken(pulls: nat) | Elapsed(pulls: nat) | Gone

  /** One refused attempt: the pulls that slip in before the flags are looked at, and the wait that follows. */
  datatype Turn = Turn(pulls: nat, wait: Wait)

  datatype Pushed = Accepted | Congested | Failed(error: RxError)

  /** n pulls in a row and what they delivered. */
  function Pulls(rx: Rx, n: nat): (Rx, seq<(Msg, QoS)>)
    requires Shape(rx)
    decreases n
  {
    if n == 0 then (rx, [])
    else
      var (rx1, r) := TryPull(rx);
      TryPullShape(rx);
      var (rx2, ms) := Pulls(rx1, n - 1);
      (rx2, (if r.Some? then [r.value] else []) + ms)
  }

  lemma {:induction false} TryPullShape(rx: Rx)
    requires Shape(rx)
    ensures Shape(TryPull(rx).0)
    decreases Total(rx.lanes)
  {
    hide DecodeMsg;
    if Highest(rx.lanes).Some? {
      var p := Highest(rx.lanes).value;
      var head := rx.lanes[p][0];
      if (rx.congested[head.qos.priority] && head.qos.cc.Drop?) || DecodeMsg(head.rest).None? {
        TryPullShape(DropHead(rx, p));
      }
    }
  }

  lemma {:induction false} PullsShape(rx: Rx, n: nat)
    requires Shape(rx)
    ensures Shape(Pulls(rx, n).0)
    decreases n
  {
    if n > 0 {
      TryPullShape(rx);
      PullsShape(TryPull(rx).0, n - 1);
    }
  }

  function SetCongested(rx: Rx, p: Priority): Rx
    requires Shape(rx)
  {
    rx.(congested := rx.congested[p := true])
  }

  /** One refused attempt, with the pulls that happen meanwhile: the push ends, or tries again (None). A Drop batch
      gives up on a congested lane, or congests it when its wait elapses; a Block batch congests it and goes on. */
  function Refusal(rx: Rx, item: Item, turn: Turn): (Rx, seq<(Msg, QoS)>, Option<Pushed>)
    requires Shape(rx)
  {
    var p, droppable := item.qos.priority, item.qos.cc.Drop?;
    PullsShape(rx, turn.pulls);
    var (rx1, ms) := Pulls(rx, turn.pulls);
    if droppable && rx1.congested[p] then (rx1, ms, Some(Congested))
    else
      match turn.wait
      case Expired => (rx1, ms, Some(Failed(TimedOut)))
      case Gone => (rx1, ms, Some(Failed(ChannelClosed)))
      case Woken(k) => (Pulls(rx1, k).0, ms + Pulls(rx1, k).1, None)
      case Elapsed(k) =>
        PullsShape(rx1, k);
        (SetCongested(Pulls(rx1, k).0, p), ms + Pulls(rx1, k).1, if droppable then Some(Congested) else None)
  }

  lemma RefusalShape(rx: Rx, item: Item, turn: Turn)
    requires Shape(rx)
    ensures Shape(Refusal(rx, item, turn).0)
  {
    hide Pulls;
    PullsShape(rx, turn.pulls);
    if turn.wait.Woken? || turn.wait.Elapsed? {
      PullsShape(Pulls(rx, turn.pulls).0, turn.wait.pulls);
    }
  }

  /** The queueing loop of `PipelineRxIn::push`. */
  function Enqueue(rx: Rx, item: Item, size: nat, turns: seq<Turn>): (Rx, seq<(Msg, QoS)>, Pushed)
    requires Shape(rx)
    decreases |turns|
  {
    var (offered, ok) := Offer(rx, item, size);
    if ok then (offered, [], Accepted)
    else if turns == [] then
      (rx, [], if item.qos.cc.Drop? && rx.congested[item.qos.priority] then Congested else Failed(TimedOut))
    else
      var (rx1, ms, end) := Refusal(rx, item, turns[0]);
      if end.Some? then (rx1, ms, end.value)
      else
        RefusalShape(rx, item, turns[0]);
        var (rx2, ms', r) := Enqueue(rx1, item, size, turns[1..]);
        (rx2, ms + ms', r)
  }

  /** The delivered messages of one priority. */
  function OfLane(ms: seq<(Msg, QoS)>, p: Priority): seq<(Msg, QoS)>
  {
    if ms == [] then [] else Got(Some(ms[0]), p) + OfLane(ms[1..], p)
  }

  lemma {:induction false} OfLaneAppend(a: seq<(Msg, QoS)>, b: seq<(Msg, QoS)>, p: Priority)
    ensures OfLane(a + b, p) == OfLane(a, p) + OfLane(b, p)
  {
    hide Got;
    if a == [] {
      assert a + b == b;
    } else {
      assert (a + b)[1..] == a[1..] + b;
      OfLaneAppend(a[1..], b, p);
    }
  }

  /** `ms` was delivered on the way from rx to rx', and `more` is what lane p was given. */
  ghost predicate Conserved(rx: Rx, ms: seq<(Msg, QoS)>, rx': Rx, p: Priority, more: seq<(Msg, QoS)>)
    requires Shape(rx) && Shape(rx')
  {
    Owed(rx, p) + more == Blocking(OfLane(ms, p)) + Owed(rx', p)
  }

  lemma ConservedThen(rx: Rx, a: seq<(Msg, QoS)>, mid: Rx, b: seq<(Msg, QoS)>, rx': Rx, p: Priority,
      more: seq<(Msg, QoS)>)
    requires Shape(rx) && Shape(mid) && Shape(rx')
    requires Conserved(rx, a, mid, p, []) && Conserved(mid, b, rx', p, more)
    ensures Conserved(rx, a + b, rx', p, more)
  {
    hide Owed, Blocking, OfLane;
    OfLaneAppend(a, b, p);
    BlockingAppend(OfLane(a, p), OfLane(b, p));
    assert Owed(rx, p) == Owed(rx, p) + [] == Blocking(OfLane(a, p)) + Owed(mid, p);
    assert Owed(rx, p) + more == Blocking(OfLane(a, p)) + (Owed(mid, p) + more);
  }

  lemma {:induction false} PullsConserve(rx: Rx, n: nat, p: Priority)
    requires Shape(rx) && Sorted(rx)
    ensures var (rx', ms) := Pulls(rx, n); Shape(rx') && Sorted(rx') && Conserved(rx, ms, rx', p, [])
    decreases n
  {
    hide TryPull, Owed;
    if n > 0 {
      var (rx1, r) := TryPull(rx);
      PullKeepsBlocking(rx);
      PullsConserve(rx1, n - 1, p);
      var (rx2, ms) := Pulls(rx1, n - 1);
      var one := if r.Some? then [r.value] else [];
      assert OfLane(one, p) == Got(r, p);
      hide Blocking, OfLane;
      ConservedThen(rx, one, rx1, ms, rx2, p, []);
    }
  }

  /** The Block messages an item brings to lane p. */
  function Brought(item: Item, p: Priority): seq<(Msg, QoS)>
  {
    if item.qos.priority == p then Blocking(Tag(ParseAll(item.rest), item.qos)) else []
  }

  lemma OfferConserves(rx: Rx, item: Item, size: nat, p: Priority)
    requires Shape(rx) && Sorted(rx)
    ensures var (rx', ok) := Offer(rx, item, size);
            Shape(rx') && Sorted(rx')
            && Conserved(rx, [], rx', p, if ok then Brought(item, p) else [])
  {
    var q := item.qos.priority;
    assert Blocking(OfLane([], p)) == [];
    hide ParseAll, Tag, Blocking, Waiting, OfLane;
    if Offer(rx, item, size).1 && q == p {
      WaitingAppend(rx.lanes[p], item);
      BlockingAppend(Waiting(rx.lanes[p]), Tag(ParseAll(item.rest), item.qos));
    }
  }

  lemma RefusalConserves(rx: Rx, item: Item, turn: Turn, p: Priority)
    requires Shape(rx) && Sorted(rx)
    ensures var (rx', ms, end) := Refusal(rx, item, turn);
            && Shape(rx') && Sorted(rx') && Conserved(rx, ms, rx', p, [])
            && (end.Some? ==> !end.value.Accepted?)
  {
    hide Conserved, Pulls;
    PullsConserve(rx, turn.pulls, p);
    var (rx1, ms) := Pulls(rx, turn.pulls);
    if turn.wait.Woken? || turn.wait.Elapsed? {
      PullsConserve(rx1, turn.wait.pulls, p);
      var (rx2, ms') := Pulls(rx1, turn.wait.pulls);
      ConservedThen(rx, ms, rx1, ms', rx2, p, []);
      FlagsApart(rx, ms + ms', rx2, SetCongested(rx2, item.qos.priority), p);
    }
  }

  lemma FlagsApart(rx: Rx, ms: seq<(Msg, QoS)>, mid: Rx, mid': Rx, p: Priority)
    requires Shape(rx) && Shape(mid) && Shape(mid') && mid.lanes == mid'.lanes && Conserved(rx, ms, mid, p, [])
    ensures Conserved(rx, ms, mid', p, [])
  {}

  /** However long a push waits and whatever is pulled meanwhile, no Block message is lost, duplicated or reordered:
      each lane afterwards owes what it owed, less what was delivered, plus the new messages exactly when they were
      accepted. */
  lemma {:induction false} EnqueueConserves(rx: Rx, item: Item, size: nat, turns: seq<Turn>, p: Priority)
    requires Shape(rx) && Sorted(rx)
    ensures var (rx', ms, r) := Enqueue(rx, item, size, turns);
            && Shape(rx') && Sorted(rx')
            && Conserved(rx, ms, rx', p, if r.Accepted? then Brought(item, p) else [])
    decreases |turns|
  {
    hide Conserved, Blocking, Tag, ParseAll, Refusal;
    OfferConserves(rx, item, size, p);
    if !Offer(rx, item, size).1 && turns != [] {
      var (rx1, ms, end) := Refusal(rx, item, turns[0]);
      RefusalConserves(rx, item, turns[0], p);
      if end.None? {
        var (rx2, ms', r) := Enqueue(rx1, item, size, turns[1..]);
        EnqueueConserves(rx1, item, size, turns[1..], p);
        ConservedThen(rx, ms, rx1, ms', rx2, p,
                      if r.Accepted? then Brought(item, p) else []);
      }
    }
  }

  /** A Block batch is never dropped for congestion: it is queued, or the caller hears an error. */
  lemma {:induction false} BlockNeverCongested(rx: Rx, item: Item, size: nat, turns: seq<Turn>)
    requires Shape(rx) && item.qos.cc.Block?
    ensures !Enqueue(rx, item, size, turns).2.Congested?
    decreases |turns|
  {
    if !Offer(rx, item, size).1 && turns != [] {
      assert Refusal(rx, item, turns[0]).2 != Some(Congested) by { hide Pulls; }
      RefusalShape(rx, item, turns[0]);
      hide Refusal;
      if Refusal(rx, item, turns[0]).2.None? {
        BlockNeverCongested(Refusal(rx, item, turns[0]).0, item, size, turns[1..]);
      }
    }
  }
}
