/** src/pipeline/rx.rs, `push` and `try_pull` seen by their callers: when a batch is queued, how a refused one ends,
    what a call delivers, what congestion costs, and what becomes of the congestion flags. */
module RxAnswers {
  import opened Base
  import opened Codec
  import opened RxSpec

  // ---- delivery --------------------------------------------------------------------------------

  /** The lanes a call looks at: those that hold something, down to the one it delivers from. */
  predicate Looked(rx: Rx, r: Option<(Msg, QoS)>, p: Priority)
    requires Shape(rx)
  {
    rx.lanes[p] != [] && (r.Some? ==> p <= r.value.1.priority)
  }

  /** Congestion costs a lane one batch: its first, if that is droppable and the call looks at it. */
  predicate Pays(rx: Rx, r: Option<(Msg, QoS)>, p: Priority)
    requires Shape(rx)
  {
    Looked(rx, r, p) && rx.congested[p] && rx.lanes[p][0].qos.cc.Drop?
  }

  function Lost(rx: Rx, r: Option<(Msg, QoS)>, p: Priority): seq<(Msg, QoS)>
    requires Shape(rx)
  {
    if Pays(rx, r, p) then Tag(ParseAll(rx.lanes[p][0].rest), rx.lanes[p][0].qos) else []
  }

  /** What a call does to lane p. */
  ghost predicate LaneAnswer(rx: Rx, rx': Rx, r: Option<(Msg, QoS)>, p: Priority)
    requires Shape(rx) && Shape(rx')
  {
    // the messages waiting: first those congestion costs, then the one delivered, then those that still wait
    && Waiting(rx.lanes[p]) == Lost(rx, r, p) + (Got(r, p) + Waiting(rx'.lanes[p]))
    // the flag is clear on every lane looked at, and as it was on every other
    && rx'.congested[p] == (rx.congested[p] && !Looked(rx, r, p))
    // lanes above the one delivered from are empty, lanes below untouched; without a delivery all are empty
    && (r.Some? && p > r.value.1.priority ==> rx'.lanes[p] == rx.lanes[p])
    && (r.None? || p < r.value.1.priority ==> rx'.lanes[p] == [])
    && |rx'.lanes[p]| <= |rx.lanes[p]|
  }

  lemma PoppedWaiting(lane: seq<Item>)
    requires lane != []
    ensures Waiting(lane) == Tag(ParseAll(lane[0].rest), lane[0].qos) + Waiting(lane[1..])
  {
    hide Tag, ParseAll;
  }

  /** One head is discarded, then the rest of the call. */
  lemma DropAnswers(rx: Rx, rx': Rx, r: Option<(Msg, QoS)>, p: Priority, q: Priority)
    requires Shape(rx) && Shape(rx') && Sorted(rx) && Highest(rx.lanes) == Some(p)
    requires (rx.congested[p] && rx.lanes[p][0].qos.cc.Drop?) || DecodeMsg(rx.lanes[p][0].rest).None?
    requires Shape(DropHead(rx, p)) && LaneAnswer(DropHead(rx, p), rx', r, q)
    requires r.Some? ==> p <= r.value.1.priority
    ensures LaneAnswer(rx, rx', r, q)
  {
    hide DecodeMsg, Tag, ParseAll, Waiting, Highest;
    var rx1 := DropHead(rx, p);
    if q == p {
      PoppedWaiting(rx.lanes[p]);
      if DecodeMsg(rx.lanes[p][0].rest).None? {
        NothingInHead(rx.lanes[p]);
      }
      assert rx1.congested[p] == false && Lost(rx1, r, p) == [];
      assert [] + (Got(r, p) + Waiting(rx'.lanes[p])) == Got(r, p) + Waiting(rx'.lanes[p]);
    } else {
      assert rx1.lanes[q] == rx.lanes[q] && rx1.congested[q] == rx.congested[q];
    }
  }

  lemma NothingInHead(lane: seq<Item>)
    requires lane != [] && DecodeMsg(lane[0].rest).None?
    ensures Tag(ParseAll(lane[0].rest), lane[0].qos) == []
  {
    assert ParseAll(lane[0].rest) == [];
  }

  /** The whole answer of `try_pull`, congestion or not. Lane by lane what waited is what congestion cost, at most one
      droppable batch, then the message delivered, then what still waits; and flags are cleared where the call looked.
      */
  lemma {:induction false} PullAnswers(rx: Rx)
    requires Shape(rx) && Sorted(rx)
    ensures var (rx', r) := TryPull(rx);
            && Shape(rx') && Sorted(rx') && rx'.block == rx.block && rx'.drop == rx.drop
            && (r.Some? ==> Highest(rx.lanes).Some? && Highest(rx.lanes).value <= r.value.1.priority)
            && forall p: Priority :: LaneAnswer(rx, rx', r, p)
    decreases Total(rx.lanes)
  {
    hide DecodeMsg, Tag, ParseAll, LaneAnswer, Waiting;
    match Highest(rx.lanes)
    case None =>
      forall p: Priority ensures LaneAnswer(rx, rx, None, p) {
        NothingPulled(rx, p);
      }
    case Some(p) =>
      var head := rx.lanes[p][0];
      if (rx.congested[p] && head.qos.cc.Drop?) || DecodeMsg(head.rest).None? {
        var rx1 := DropHead(rx, p);
        PullAnswers(rx1);
        HighestLater(rx, p);
        var (rx', r) := TryPull(rx1);
        forall q: Priority ensures LaneAnswer(rx, rx', r, q) {
          DropAnswers(rx, rx', r, p, q);
        }
      } else {
        forall q: Priority ensures LaneAnswer(rx, TryPull(rx).0, TryPull(rx).1, q) {
          HeadPulled(rx, p, q);
        }
      }
  }

  lemma HighestLater(rx: Rx, p: Priority)
    requires Shape(rx) && Highest(rx.lanes) == Some(p)
    ensures var h := Highest(DropHead(rx, p).lanes); h.Some? ==> p <= h.value
  {}

  lemma NothingPulled(rx: Rx, p: Priority)
    requires Shape(rx) && rx.lanes[p] == []
    ensures LaneAnswer(rx, rx, None, p)
  {}

  lemma HeadPulled(rx: Rx, p: Priority, q: Priority)
    requires Shape(rx) && Sorted(rx) && Highest(rx.lanes) == Some(p) && DecodeMsg(rx.lanes[p][0].rest).Some?
    requires !(rx.congested[p] && rx.lanes[p][0].qos.cc.Drop?)
    ensures Shape(TryPull(rx).0) && LaneAnswer(rx, TryPull(rx).0, TryPull(rx).1, q)
  {
    hide DecodeMsg, Tag, ParseAll, Waiting;
    var (m, n) := DecodeMsg(rx.lanes[p][0].rest).value;
    var (rx', r) := TryPull(rx);
    if q == p {
      DecodedHead(rx.lanes[p], m, n);
    } else if q < p {
      assert Waiting([]) == [] by { WaitingNone(); }
    }
    assert Lost(rx, r, q) == [];
    assert [] + (Got(r, q) + Waiting(rx'.lanes[q])) == Got(r, q) + Waiting(rx'.lanes[q]);
    assert q != p ==> [] + Waiting(rx'.lanes[q]) == Waiting(rx'.lanes[q]);
  }

  // ---- queueing --------------------------------------------------------------------------------

  /** Lanes do not grow, flags are only cleared, reassembly is untouched. */
  ghost predicate Shrinks(rx: Rx, rx': Rx)
    requires Shape(rx) && Shape(rx')
  {
    && rx'.block == rx.block && rx'.drop == rx.drop
    && forall p: Priority :: |rx'.lanes[p]| <= |rx.lanes[p]| && (rx'.congested[p] ==> rx.congested[p])
  }

  lemma {:induction false} PullsShrink(rx: Rx, n: nat)
    requires Shape(rx) && Sorted(rx)
    ensures Shape(Pulls(rx, n).0) && Sorted(Pulls(rx, n).0) && Shrinks(rx, Pulls(rx, n).0)
    decreases n
  {
    hide TryPull, LaneAnswer;
    if n > 0 {
      var (rx1, r) := TryPull(rx);
      PullAnswers(rx);
      forall p: Priority ensures |rx1.lanes[p]| <= |rx.lanes[p]| && (rx1.congested[p] ==> rx.congested[p]) {
        LaneShrinks(rx, rx1, r, p);
      }
      PullsShrink(rx1, n - 1);
      assert Pulls(rx, n).0 == Pulls(rx1, n - 1).0;
      hide Pulls;
    }
  }

  lemma LaneShrinks(rx: Rx, rx': Rx, r: Option<(Msg, QoS)>, p: Priority)
    requires Shape(rx) && Shape(rx') && LaneAnswer(rx, rx', r, p)
    ensures |rx'.lanes[p]| <= |rx.lanes[p]| && (rx'.congested[p] ==> rx.congested[p])
  {}

  /** How a refused attempt ends is fixed by the batch's class, the lane's flag once the other side has pulled, and the
      wait; an elapsed wait leaves the lane flagged, nothing else sets a flag. */
  lemma RefusalAnswers(rx: Rx, item: Item, turn: Turn)
    requires Shape(rx) && Sorted(rx)
    ensures var (rx', ms, end) := Refusal(rx, item, turn);
            var (p, rx1) := (item.qos.priority, Pulls(rx, turn.pulls).0);
            && Shape(rx') && Sorted(rx') && Shape(rx1)
            && (item.qos.cc.Drop? && rx1.congested[p] ==> end == Some(Congested) && rx' == rx1)
            && (!(item.qos.cc.Drop? && rx1.congested[p]) ==>
                  && (turn.wait.Woken? <==> end.None? && !turn.wait.Elapsed?)
                  && (turn.wait.Elapsed? ==> rx'.congested[p])
                  && (turn.wait.Elapsed? ==> end == if item.qos.cc.Drop? then Some(Congested) else None)
                  && (turn.wait.Expired? ==> end == Some(Failed(TimedOut)))
                  && (turn.wait.Gone? ==> end == Some(Failed(ChannelClosed)))
                  && (!turn.wait.Elapsed? && rx'.congested[p] ==> rx.congested[p]))
            && (forall q: Priority :: |rx'.lanes[q]| <= |rx.lanes[q]|)
            && (forall q: Priority :: q != p && rx'.congested[q] ==> rx.congested[q])
            && rx'.block == rx.block && rx'.drop == rx.drop
  {
    hide Pulls;
    PullsShrink(rx, turn.pulls);
    if turn.wait.Woken? || turn.wait.Elapsed? {
      PullsShrink(Pulls(rx, turn.pulls).0, turn.wait.pulls);
    }
  }

  /** A batch is queued at once, last on its lane and with nothing pulled, exactly when its lane has room; a full lane
      never takes it before something happened on the other side. */
  lemma EnqueueAnswers(rx: Rx, item: Item, size: nat, turns: seq<Turn>)
    requires Shape(rx)
    ensures var ((rx', ms, r), p) := (Enqueue(rx, item, size, turns), item.qos.priority);
            && Shape(rx')
            && (|rx.lanes[p]| < size ==>
                  && r == Accepted && ms == [] && rx'.lanes[p] == rx.lanes[p] + [item]
                  && rx'.congested == rx.congested && rx'.block == rx.block && rx'.drop == rx.drop
                  && forall q: Priority :: q != p ==> rx'.lanes[q] == rx.lanes[q])
            && (|rx.lanes[p]| >= size && turns == [] ==> r != Accepted && rx' == rx)
            && (|rx.lanes[p]| >= size && r == Accepted ==>
                  exists i :: 0 <= i < |turns| && (turns[i].wait.Woken? || turns[i].wait.Elapsed?))
  {
    EnqueueShape(rx, item, size, turns);
    hide Pulls;
    var p := item.qos.priority;
    if |rx.lanes[p]| >= size && turns != [] && Enqueue(rx, item, size, turns).2 == Accepted {
      RefusalShape(rx, item, turns[0]);
      assert turns[0].wait.Woken? || turns[0].wait.Elapsed?;
    }
  }

  lemma {:induction false} EnqueueShape(rx: Rx, item: Item, size: nat, turns: seq<Turn>)
    requires Shape(rx)
    ensures Shape(Enqueue(rx, item, size, turns).0)
    decreases |turns|
  {
    hide Refusal;
    if !Offer(rx, item, size).1 && turns != [] {
      RefusalShape(rx, item, turns[0]);
      if Refusal(rx, item, turns[0]).2.None? {
        EnqueueShape(Refusal(rx, item, turns[0]).0, item, size, turns[1..]);
      }
    }
  }

  /** No lane ever holds more than its capacity. */
  ghost predicate Bounded(rx: Rx, size: nat)
    requires Shape(rx)
  {
    forall p: Priority :: |rx.lanes[p]| <= size
  }

  lemma {:induction false} EnqueueBounded(rx: Rx, item: Item, size: nat, turns: seq<Turn>)
    requires Shape(rx) && Sorted(rx) && Bounded(rx, size)
    ensures var rx' := Enqueue(rx, item, size, turns).0; Shape(rx') && Bounded(rx', size)
    decreases |turns|
  {
    hide Refusal;
    if !Offer(rx, item, size).1 && turns != [] {
      RefusalAnswers(rx, item, turns[0]);
      if Refusal(rx, item, turns[0]).2.None? {
        EnqueueBounded(Refusal(rx, item, turns[0]).0, item, size, turns[1..]);
      }
    }
  }

  /** The queue as attempt k finds it, if every attempt before was refused and another followed. */
  function Attempt(rx: Rx, item: Item, turns: seq<Turn>, k: nat): (r: Rx)
    requires Shape(rx) && k <= |turns|
    ensures Shape(r)
  {
    if k == 0 then rx
    else
      var rx1 := Attempt(rx, item, turns, k - 1);
      RefusalShape(rx1, item, turns[k - 1]);
      Refusal(rx1, item, turns[k - 1]).0
  }

  lemma {:induction false} AttemptLater(rx: Rx, item: Item, turns: seq<Turn>, k: nat)
    requires Shape(rx) && k < |turns| && Shape(Refusal(rx, item, turns[0]).0)
    ensures Attempt(rx, item, turns, k + 1) == Attempt(Refusal(rx, item, turns[0]).0, item, turns[1..], k)
    decreases k
  {
    hide Refusal;
    if k == 0 {
      assert Attempt(rx, item, turns, 0) == rx;
    } else {
      AttemptLater(rx, item, turns, k - 1);
    }
  }

  /** Attempt i finds no room, and is followed by another. */
  ghost predicate TriesAgain(rx: Rx, item: Item, size: nat, turns: seq<Turn>, i: nat)
    requires Shape(rx) && i < |turns|
  {
    var rx1 := Attempt(rx, item, turns, i);
    |rx1.lanes[item.qos.priority]| >= size && Refusal(rx1, item, turns[i]).2.None?
  }

  /** A push tries until an attempt finds room, and that queues its batch last on its lane, or until a refused attempt
      ends it. It gives up for no other reason. */
  lemma {:induction false} EnqueueEnds(rx: Rx, item: Item, size: nat, turns: seq<Turn>) returns (k: nat)
    requires Shape(rx)
    ensures k <= |turns| && forall i: nat :: i < k ==> TriesAgain(rx, item, size, turns, i)
    ensures var ((rx', _, r), last, p) :=
              (Enqueue(rx, item, size, turns), Attempt(rx, item, turns, k), item.qos.priority);
            if |last.lanes[p]| < size then r == Accepted &&
                rx' == last.(lanes := last.lanes[p := last.lanes[p] + [item]])
            else if k < |turns| then var (at, _, end) := Refusal(last, item, turns[k]); end == Some(r) && rx' == at
            else rx' == last && r == if item.qos.cc.Drop? && last.congested[p] then Congested else Failed(TimedOut)
    decreases |turns|
  {
    hide Refusal;
    k := 0;
    if |rx.lanes[item.qos.priority]| >= size && turns != [] && Refusal(rx, item, turns[0]).2.None? {
      RefusalShape(rx, item, turns[0]);
      var rx1 := Refusal(rx, item, turns[0]).0;
      var j := EnqueueEnds(rx1, item, size, turns[1..]);
      k := j + 1;
      AttemptLater(rx, item, turns, j);
      forall i: nat | i < k ensures TriesAgain(rx, item, size, turns, i) {
        if i > 0 {
          AttemptLater(rx, item, turns, i - 1);
          assert TriesAgain(rx1, item, size, turns[1..], i - 1);
        }
      }
    }
  }

  // ---- reassembly ------------------------------------------------------------------------------

  /** The one fragment a buffer takes next: a first one, or the one it expects; within the capacity. */
  predicate Wanted(d: Defrag, s: SeqNum, kind: Kind, id: SeqNum, data: seq<byte>, cap: nat)
  {
    && (kind.First? || (s == d.seqNum && id == d.fragId))
    && (if kind.First? then 0 else |d.buf|) + |data| <= cap
  }

  /** What a fragment does to a buffer. One that is wanted makes it expect the next; a first one starts over with its
      own bytes, a last one hands everything on and leaves it empty. One that is not wanted changes no number, except
      that a first one still sets them; it empties the buffer unless it is a last one. */
  lemma FragmentAnswers(d: Defrag, qos: QoS, s: SeqNum, kind: Kind, id: SeqNum, data: seq<byte>, cap: nat)
    ensures var (d', a) := RxSpec.Fragment(d, qos, s, kind, id, data, cap);
            var before := if kind.First? then [] else d.buf;
            if Wanted(d, s, kind, id, data, cap) then
              && d'.seqNum == NextSeq(s) && d'.fragId == id
              && d'.buf == (if kind.Last? then [] else before + data)
              && a == if kind.Last? then Queue(Item(qos, before + data)) else Stored
            else
              && d' == Defrag(if kind.First? then s else d.seqNum, if kind.First? then id else d.fragId,
                         if kind.Last? then d.buf else [])
              && a.Refused?
              && (a.error == InvalidSeqNum <==> !kind.First? && s != d.seqNum)
              && (a.error == InvalidFragId <==> !kind.First? && s == d.seqNum && id != d.fragId)
              && (a.error == CapacityLimit <==> kind.First? || (s == d.seqNum && id == d.fragId))
  {}

  /** A received batch touches no queue and no flag, and at most the reassembly buffer of its own class. */
  lemma ReceiveAnswers(rx: Rx, bytes: seq<byte>, cap: nat)
    requires Shape(rx)
    ensures var ((rx', a), h) := (Receive(rx, bytes, cap), DecodeHeader(bytes));
            && Shape(rx') && rx'.lanes == rx.lanes && rx'.congested == rx.congested
            && (h.None? ==> rx' == rx && a == Refused(DecodingFailed))
            && (h.Some? && h.value.0.body.Frame? ==>
                  rx' == rx && a == Queue(Item(h.value.0.qos, bytes[h.value.1..])))
            && (a.Queue? ==> h.Some? && a.item.qos == h.value.0.qos)
            && forall q: QoS :: h.None? || q.priority != h.value.0.qos.priority || q.cc != h.value.0.qos.cc ==>
                                  DefragOf(rx', q) == DefragOf(rx, q)
  {
    hide DecodeHeader;
  }
}
