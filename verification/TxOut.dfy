/** src/pipeline/tx.rs, `try_pull`: the scan over the four in-out rings, highest priority first, that sheds what must
    not be sent any more and returns the first batch that must. */
module TxOut {
  import opened Base
  import opened Codec
  import opened TxStage
  import Framing

  /** A committed batch and whether its message's drop flag is set. */
  datatype OutBatch = OutBatch(w: WriteBatch, flagged: bool)

  /** The rings, the BOOKED bits, the congestion flags and the refill rings. */
  datatype Out = Out(lanes: seq<seq<OutBatch>>, booked: seq<bool>, congested: seq<bool>, refill: seq<seq<WriteBatch>>)

  predicate Shape(o: Out)
  {
    && |o.lanes| == 4 && |o.booked| == 4 && |o.congested| == 4 && |o.refill| == 4
    && forall p: Priority, i: nat :: i < |o.lanes[p]| ==> |o.lanes[p][i].w.frame| >= 2
  }

  /** `Pull`. */
  datatype Pull = Got(b: OutBatch) | Booked | Nothing

  function Total(o: Out): nat
    requires |o.lanes| == 4
  {
    |o.lanes[0]| + |o.lanes[1]| + |o.lanes[2]| + |o.lanes[3]|
  }

  /** The highest lane that does not answer `Pull::None`. */
  function FirstActive(o: Out, p: nat): (r: nat)
    requires Shape(o) && p <= 4
    ensures p <= r <= 4 && forall q: nat :: p <= q < r ==> o.lanes[q] == [] && !o.booked[q]
    ensures r < 4 ==> o.lanes[r] != [] || o.booked[r]
    decreases 4 - p
  {
    if p == 4 || o.lanes[p] != [] || o.booked[p] then p else FirstActive(o, p + 1)
  }

  function Cleared(w: WriteBatch): WriteBatch
  {
    w.(frame := LEN_PREFIX, fragment := [])
  }

  predicate Shed(o: Out, b: OutBatch)
    requires Shape(o)
  {
    b.flagged || (o.congested[b.w.qos.priority] && b.w.qos.cc.Drop?)
  }

  /** The head of lane p is taken and the congestion flag of its priority cleared. */
  function Popped(o: Out, p: Priority): Out
    requires Shape(o) && o.lanes[p] != []
  {
    o.(lanes := o.lanes[p := o.lanes[p][1..]], congested := o.congested[o.lanes[p][0].w.qos.priority := false])
  }

  function Refilled(o: Out, w: WriteBatch): Out
    requires |o.refill| == 4
  {
    o.(refill := o.refill[w.qos.priority := o.refill[w.qos.priority] + [Cleared(w)]])
  }

  lemma PoppedShape(o: Out, p: Priority)
    requires Shape(o) && o.lanes[p] != []
    ensures Shape(Popped(o, p)) && Total(Popped(o, p)) == Total(o) - 1
  {}

  function TryPull(o: Out): (Out, Option<WriteBatch>)
    requires Shape(o)
    decreases Total(o)
  {
    var p := FirstActive(o, 0);
    if p == 4 || o.lanes[p] == [] then (o, None)
    else
      var b := o.lanes[p][0];
      PoppedShape(o, p);
      if Shed(o, b) then TryPull(Refilled(Popped(o, p), b.w)) else (Popped(o, p), Some(Framing.Stamped(b.w)))
  }

  // ---- what one call does, from the state before and the state after alone --------------------

  /** The batches a call took from lane p on, in the order it took them: ks[q] from the front of lane q. */
  function Trail(o: Out, ks: seq<nat>, p: nat): seq<OutBatch>
    requires Shape(o) && Within(o, ks) && p <= 4
    decreases 4 - p
  {
    if p == 4 then [] else o.lanes[p][..ks[p]] + Trail(o, ks, p + 1)
  }

  predicate Within(o: Out, ks: seq<nat>)
    requires Shape(o)
  {
    |ks| == 4 && forall p: Priority :: ks[p] <= |o.lanes[p]|
  }

  function PriorityOf(b: OutBatch): Priority
  {
    b.w.qos.priority
  }

  /** Whether batch i of a trail must not be sent: it is flagged, or it is droppable, its priority was congested, and no
      earlier batch of the trail had cleared that congestion. */
  predicate MustShed(congested: seq<bool>, trail: seq<OutBatch>, i: nat)
    requires |congested| == 4 && i < |trail|
  {
    trail[i].flagged ||
    (trail[i].w.qos.cc.Drop? && congested[PriorityOf(trail[i])] &&
     forall j :: 0 <= j < i ==> PriorityOf(trail[j]) != PriorityOf(trail[i]))
  }

  /** The emptied batches of priority p, in order. */
  function Emptied(trail: seq<OutBatch>, p: Priority): seq<WriteBatch>
  {
    if trail == [] then []
    else (if PriorityOf(trail[0]) == p then [WriteBatch(trail[0].w.qos, [0, 0], [])] else []) + Emptied(trail[1..], p)
  }

  /** The batches of a trail that went back: all of them, or all but the one returned. */
  function ShedPart(trail: seq<OutBatch>, r: Option<WriteBatch>): seq<OutBatch>
    requires r.Some? ==> trail != []
  {
    if r.Some? then trail[..|trail| - 1] else trail
  }

  /** Every batch of the trail but a returned one had to be shed, and a returned one had not. */
  predicate Judged(congested: seq<bool>, trail: seq<OutBatch>, r: Option<WriteBatch>)
    requires |congested| == 4
  {
    && (r.Some? ==> trail != [])
    && forall i: nat :: i < |trail| ==> (MustShed(congested, trail, i) <==> r.None? || i < |trail| - 1)
  }

  /** A priority's flag is cleared exactly when a batch of it was taken. */
  predicate FlagAt(o: Out, o': Out, trail: seq<OutBatch>, p: Priority)
    requires Shape(o) && Shape(o')
  {
    o'.congested[p] == (o.congested[p] && forall i :: 0 <= i < |trail| ==> PriorityOf(trail[i]) != p)
  }

  /** What a call does to lane p when it stops at lane s. */
  predicate LaneAt(o: Out, o': Out, ks: seq<nat>, s: nat, p: Priority)
    requires Shape(o) && Shape(o') && Within(o, ks)
  {
    && o'.lanes[p] == o.lanes[p][ks[p]..]
    && (p < s ==> o'.lanes[p] == [] && !o.booked[p])
    && (p > s ==> ks[p] == 0)
  }

  /** The whole answer of a call. It empties the lanes above some lane s, none of which is being filled, and leaves the
      lanes below s alone. It returns the last batch it took from s; or, without a result, s is empty and being filled,
      or there is no lane left. What it took but did not return are exactly the batches that must not be sent. */
  ghost predicate Strict(o: Out, o': Out, ks: seq<nat>, s: nat, r: Option<WriteBatch>)
    requires Shape(o) && Shape(o')
  {
    && Within(o, ks) && s <= 4 && o'.booked == o.booked
    && (forall p: Priority :: LaneAt(o, o', ks, s, p))
    && (r.Some? ==> s < 4 && ks[s] > 0 && r.value == Framing.Stamped(o.lanes[s][ks[s] - 1].w))
    && (r.None? && s < 4 ==> o'.lanes[s] == [] && o.booked[s])
    && Judged(o.congested, Trail(o, ks, 0), r)
    && (forall p: Priority :: FlagAt(o, o', Trail(o, ks, 0), p))
    && forall p: Priority :: o'.refill[p] == o.refill[p] + Emptied(ShedPart(Trail(o, ks, 0), r), p)
  }

  lemma {:induction false} TryPullIsStrict(o: Out) returns (ks: seq<nat>, s: nat)
    requires Shape(o)
    ensures var (o', r) := TryPull(o); Shape(o') && Strict(o, o', ks, s, r)
    decreases Total(o)
  {
    hide Strict, FirstActive, Total, Shed;
    var p := FirstActive(o, 0);
    if p == 4 || o.lanes[p] == [] {
      ks, s := [0, 0, 0, 0], p;
      NothingTaken(o);
    } else {
      var b := o.lanes[p][0];
      PoppedShape(o, p);
      if Shed(o, b) {
        var o1 := Refilled(Popped(o, p), b.w);
        SameTotal(o, p, b.w);
        var ks1;
        ks1, s := TryPullIsStrict(o1);
        assert Within(o1, ks1) by {
          StrictWithin(o1, TryPull(o1).0, ks1, s, TryPull(o1).1);
        }
        ks := ks1[p := ks1[p] + 1];
        hide TryPull;
        StrictStep(o, TryPull(o1).0, p, ks1, s, TryPull(o1).1);
      } else {
        ks, s := [0, 0, 0, 0][p := 1], p;
        OneTaken(o, p);
      }
    }
  }

  lemma StrictWithin(o: Out, o': Out, ks: seq<nat>, s: nat, r: Option<WriteBatch>)
    requires Shape(o) && Shape(o') && Strict(o, o', ks, s, r)
    ensures Within(o, ks)
  {}

  lemma NothingTaken(o: Out)
    requires Shape(o) && (FirstActive(o, 0) == 4 || o.lanes[FirstActive(o, 0)] == [])
    ensures Strict(o, o, [0, 0, 0, 0], FirstActive(o, 0), None)
  {
    hide FirstActive;
    NoTrail(o, 0);
    forall p: Priority ensures LaneAt(o, o, [0, 0, 0, 0], FirstActive(o, 0), p) {}
  }

  lemma {:induction false} NoTrail(o: Out, p: nat)
    requires Shape(o) && p <= 4
    ensures Trail(o, [0, 0, 0, 0], p) == []
    decreases 4 - p
  {
    if p < 4 {
      NoTrail(o, p + 1);
    }
  }

  lemma {:induction false} TrailBelow(o: Out, o1: Out, p: Priority, ks: seq<nat>, q: nat)
    requires Shape(o) && Shape(o1) && p < q <= 4 && Within(o1, ks) && Within(o, ks[p := ks[p] + 1])
    requires forall x: Priority :: x > p ==> o1.lanes[x] == o.lanes[x]
    ensures Trail(o, ks[p := ks[p] + 1], q) == Trail(o1, ks, q)
    decreases 4 - q
  {
    if q < 4 {
      TrailBelow(o, o1, p, ks, q + 1);
    }
  }

  /** A batch taken from the highest lane that holds any comes first in the trail. */
  lemma {:induction false} TrailStep(o: Out, o1: Out, p: Priority, ks: seq<nat>, q: nat)
    requires Shape(o) && Shape(o1) && o.lanes[p] != [] && (forall x: Priority :: x < p ==> o.lanes[x] == [])
    requires o1.lanes == o.lanes[p := o.lanes[p][1..]] && Within(o1, ks) && q <= p
    ensures Within(o, ks[p := ks[p] + 1])
    ensures Trail(o, ks[p := ks[p] + 1], q) == [o.lanes[p][0]] + Trail(o1, ks, q)
    decreases 4 - q
  {
    hide Trail;
    var ks' := ks[p := ks[p] + 1];
    forall x: Priority ensures ks'[x] <= |o.lanes[x]| {
      assert ks[x] <= |o1.lanes[x]|;
    }
    TrailAt(o, ks', q);
    TrailAt(o1, ks, q);
    if q < p {
      TrailStep(o, o1, p, ks, q + 1);
    } else {
      TrailBelow(o, o1, p, ks, p + 1);
      assert o.lanes[p][..ks'[p]] == [o.lanes[p][0]] + o1.lanes[p][..ks[p]];
    }
  }

  lemma TrailAt(o: Out, ks: seq<nat>, q: nat)
    requires Shape(o) && Within(o, ks) && q < 4
    ensures Trail(o, ks, q) == o.lanes[q][..ks[q]] + Trail(o, ks, q + 1)
    ensures o.lanes[q] == [] ==> Trail(o, ks, q) == Trail(o, ks, q + 1)
  {}

  lemma OneTaken(o: Out, p: Priority)
    requires Shape(o) && FirstActive(o, 0) == p && o.lanes[p] != [] && !Shed(o, o.lanes[p][0]) && Shape(Popped(o, p))
    ensures Strict(o, Popped(o, p), [0, 0, 0, 0][p := 1], p, Some(Framing.Stamped(o.lanes[p][0].w)))
  {
    hide FirstActive, Framing.Stamped, Trail;
    var o' := Popped(o, p);
    TrailStep(o, o', p, [0, 0, 0, 0], 0);
    NoTrail(o', 0);
    var trail := [o.lanes[p][0]];
    assert Trail(o, [0, 0, 0, 0][p := 1], 0) == trail;
    assert trail[..0] == [];
    assert trail[0] == o.lanes[p][0];
    forall q: Priority ensures LaneAt(o, o', [0, 0, 0, 0][p := 1], p, q) && FlagAt(o, o', trail, q) {}
  }

  /** One batch more at the front of a trail: it had to be shed, and it cleared its priority's congestion. */
  lemma JudgedStep(congested: seq<bool>, b: OutBatch, trail: seq<OutBatch>, r: Option<WriteBatch>)
    requires |congested| == 4 && (b.flagged || (congested[PriorityOf(b)] && b.w.qos.cc.Drop?))
    requires Judged(congested[PriorityOf(b) := false], trail, r)
    ensures Judged(congested, [b] + trail, r)
  {
    hide Framing.Stamped;
    var long := [b] + trail;
    forall i: nat | i < |long| ensures MustShed(congested, long, i) <==> r.None? || i < |long| - 1 {
      if i > 0 {
        ShedLater(congested, b, trail, i - 1);
      }
    }
  }

  lemma ShedLater(congested: seq<bool>, b: OutBatch, trail: seq<OutBatch>, i: nat)
    requires |congested| == 4 && i < |trail|
    ensures MustShed(congested, [b] + trail, i + 1) <==> MustShed(congested[PriorityOf(b) := false], trail, i)
  {
    var long := [b] + trail;
    assert long[0] == b && long[i + 1] == trail[i];
    assert forall j :: 0 <= j < i ==> long[j + 1] == trail[j];
    assert forall j :: 1 <= j < i + 1 ==> long[j] == trail[j - 1];
  }

  lemma FlagStep(o: Out, o1: Out, o': Out, b: OutBatch, trail: seq<OutBatch>, p: Priority)
    requires Shape(o) && Shape(o1) && Shape(o') && o1.congested == o.congested[PriorityOf(b) := false]
    requires FlagAt(o1, o', trail, p)
    ensures FlagAt(o, o', [b] + trail, p)
  {
    var long := [b] + trail;
    assert long[0] == b;
    assert forall i :: 0 <= i < |trail| ==> long[i + 1] == trail[i];
    assert forall i :: 1 <= i < |long| ==> long[i] == trail[i - 1];
  }

  /** One batch shed from lane p, then the rest of the call. */
  lemma StrictStep(o: Out, o': Out, p: Priority, ks: seq<nat>, s: nat, r: Option<WriteBatch>)
    requires Shape(o) && Shape(o') && FirstActive(o, 0) == p && o.lanes[p] != [] && Shed(o, o.lanes[p][0])
    requires var o1 := Refilled(Popped(o, p), o.lanes[p][0].w); Shape(o1) && Strict(o1, o', ks, s, r)
    ensures Strict(o, o', ks[p := ks[p] + 1], s, r)
  {
    hide FirstActive, Judged, FlagAt, Trail, LaneAt, MustShed;
    var b := o.lanes[p][0];
    var o1 := Refilled(Popped(o, p), b.w);
    var ks' := ks[p := ks[p] + 1];
    TrailStep(o, o1, p, ks, 0);
    var trail := Trail(o1, ks, 0);
    assert r.Some? ==> trail != [] by {
      JudgedSome(o1.congested, trail, r);
    }
    JudgedStep(o.congested, b, trail, r);
    forall q: Priority ensures FlagAt(o, o', [b] + trail, q) {
      FlagStep(o, o1, o', b, trail, q);
    }
    Reached(o, o1, p, ks, s);
    forall q: Priority ensures LaneAt(o, o', ks', s, q) {
      LaneStep(o, o1, o', p, ks, s, q);
    }
    var shed := ShedPart(trail, r);
    assert ShedPart([b] + trail, r) == [b] + shed;
    forall q: Priority ensures o'.refill[q] == o.refill[q] + Emptied([b] + shed, q) {
      assert ([b] + shed)[1..] == shed;
      assert o'.refill[q] == o1.refill[q] + Emptied(shed, q);
    }
  }

  lemma JudgedSome(congested: seq<bool>, trail: seq<OutBatch>, r: Option<WriteBatch>)
    requires |congested| == 4 && Judged(congested, trail, r)
    ensures r.Some? ==> trail != []
  {}

  lemma LaneStep(o: Out, o1: Out, o': Out, p: Priority, ks: seq<nat>, s: nat, q: Priority)
    requires Shape(o) && Shape(o1) && Shape(o') && FirstActive(o, 0) == p && o.lanes[p] != []
    requires o1.lanes == o.lanes[p := o.lanes[p][1..]] && o1.booked == o.booked && Within(o1, ks) &&
             LaneAt(o1, o', ks, s, q)
    requires Within(o, ks[p := ks[p] + 1]) && p <= s
    ensures LaneAt(o, o', ks[p := ks[p] + 1], s, q)
  {}

  lemma Reached(o: Out, o1: Out, p: Priority, ks: seq<nat>, s: nat)
    requires Shape(o) && Shape(o1) && FirstActive(o, 0) == p && o1.lanes == o.lanes[p := o1.lanes[p]] && Within(o1, ks)
    requires s < 4 ==> ks[s] > 0 || o.booked[s]
    ensures p <= s
  {
    hide FirstActive;
    assert forall q: Priority :: q < p ==> o1.lanes[q] == [];
  }

  // ---- the loop --------------------------------------------------------------------------------

  class PipelineTxOut {
    var lanes: seq<seq<OutBatch>>
    var booked: seq<bool>
    var congested: seq<bool>
    var refill: seq<seq<WriteBatch>>

    ghost function Abs(): Out
      reads this
    {
      Out(lanes, booked, congested, refill)
    }

    ghost predicate Valid()
      reads this
    {
      Shape(Abs())
    }

    constructor ()
      ensures Valid() && Abs() == Out([[], [], [], []], [false, false, false, false], [false, false, false, false],
              [[], [], [], []])
    {
      lanes := [[], [], [], []];
      booked, congested := [false, false, false, false], [false, false, false, false];
      refill := [[], [], [], []];
    }

    method PullPriority(p: Priority) returns (r: Pull)
      requires Valid()
      modifies this`lanes
      ensures Valid()
      ensures match r
              case Got(b) => old(lanes[p]) != [] && b == old(lanes[p][0]) && lanes == old(lanes[p := lanes[p][1..]])
              case Booked => lanes == old(lanes) && lanes[p] == [] && booked[p]
              case Nothing => lanes == old(lanes) && lanes[p] == [] && !booked[p]
    {
      if lanes[p] != [] {
        r := Got(lanes[p][0]);
        lanes := lanes[p := lanes[p][1..]];
      } else if booked[p] {
        r := Booked;
      } else {
        r := Nothing;
      }
    }

    method Refill(w: WriteBatch)
      requires Valid()
      modifies this`refill
      ensures Valid() && Abs() == Refilled(old(Abs()), w)
    {
      refill := refill[w.qos.priority := refill[w.qos.priority] + [Cleared(w)]];
    }

    /** One scan. `again` asks for another, after a batch was shed. */
    method Scan() returns (again: bool, r: Option<WriteBatch>)
      requires Valid()
      modifies this
      ensures Valid()
      ensures again ==> Total(Abs()) < Total(old(Abs())) && TryPull(Abs()) == TryPull(old(Abs()))
      ensures !again ==> (Abs(), r) == TryPull(old(Abs()))
    {
      hide FirstActive, Total;
      ghost var before := Abs();
      var p := 0;
      while p < 4
        invariant p <= 4 && Abs() == before && Valid() && FirstActive(before, 0) == FirstActive(before, p)
      {
        FirstStep(before, p);
        var got := PullPriority(p);
        match got {
          case Got(b) =>
            PoppedShape(before, p);
            var q := b.w.qos.priority;
            var isCongested := congested[q];
            congested := congested[q := false];
            assert Abs() == Popped(before, p);
            if (isCongested && b.w.qos.cc.Drop?) || b.flagged {
              Refill(b.w);
              SameTotal(before, p, b.w);
              return true, None;
            }
            return false, Some(Framing.Stamped(b.w));
          case Booked => return false, None;
          case Nothing =>
        }
        p := p + 1;
      }
      FirstStep(before, 4);
      return false, None;
    }

    method TryPullNext() returns (r: Option<WriteBatch>)
      requires Valid()
      modifies this
      ensures Valid() && (Abs(), r) == TryPull(old(Abs()))
    {
      hide TryPull, Total;
      ghost var before := Abs();
      var again := true;
      r := None;
      while again
        invariant Valid()
        invariant again ==> TryPull(Abs()) == TryPull(before)
        invariant !again ==> (Abs(), r) == TryPull(before)
        decreases again, Total(Abs())
      {
        again, r := Scan();
      }
    }
  }

  lemma FirstStep(o: Out, p: nat)
    requires Shape(o) && p <= 4
    ensures FirstActive(o, p) == if p == 4 || o.lanes[p] != [] || o.booked[p] then p else FirstActive(o, p + 1)
  {}

  lemma SameTotal(o: Out, p: Priority, w: WriteBatch)
    requires Shape(o) && o.lanes[p] != []
    ensures Total(Refilled(Popped(o, p), w)) < Total(o)
  {
    PoppedShape(o, p);
  }
}
