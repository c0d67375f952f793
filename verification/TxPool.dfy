/** src/pipeline/tx.rs, the travels of the write batches: every priority owns at most `capacity` of them, and they
    go round refill ring, stage, booked cell, in-out ring, puller and back. A transition system over the threads'
    steps; the rings are the queues RingBuf refines to, with the removal of an element and its publication as
    separate steps. */
module TxPool {
  import opened Base
  import opened Codec

  /** One priority. Batches are numbered in order of allocation. `hand`: taken for booking, under the lock; `out`:
      with the puller or the writing task; `gone`: destroyed, or lost by a push that found its ring full. `lagIn`,
      `lagRe`: the last removal from the in-out or refill ring is not published yet, so its slot still counts. `prio`:
      the priority in the batch's own qos, set when it is booked, by which it is refilled. `asked` is the source's
      `allocated`. */
  datatype Pool = Pool(hand: Option<nat>, booked: Option<nat>, inout: seq<nat>, lagIn: bool, refill: seq<nat>,
      lagRe: bool,
                       asked: nat, created: nat, out: multiset<nat>, gone: multiset<nat>, prio: map<nat, Priority>)

  /** The puller's scan: the lane it looks at next, and which lanes were busy when it began. `faults` counts bookings
      refused and refills that found no room. */
  datatype Sys = Sys(lanes: seq<Pool>, at: nat, busy: seq<bool>, faults: nat)

  /** `capacity` batches a priority; rings of the next power of two. */
  datatype Config = Config(capacity: nat, ring: nat)

  const EMPTY_POOL := Pool(None, None, [], false, [], false, 0, 0, multiset{}, multiset{}, map[])
  const INIT_SYS := Sys([EMPTY_POOL, EMPTY_POOL, EMPTY_POOL, EMPTY_POOL], 0, [false, false, false, false], 0)

  datatype Action =
    | TakeRefill(p: Priority)     // StageRefill::pull, a recycled batch
    | PublishRefill(p: Priority)  // ... its slot is free
    | Allocate(p: Priority)       // ... or a new one, or none
    | Book(p: Priority, q: Priority) // the message's priority q goes into the batch
    | Commit(p: Priority)         // by a push, or by the puller's flush
    | StartScan
    | Visit                       // pull_priority on the next lane
    | PublishPull(p: Priority)
    | Refill(p: Priority, id: nat)
    | Destroy(p: Priority, id: nat)

  predicate Busy(l: Pool)
  {
    l.booked.Some? || l.inout != []
  }

  function BusyOf(s: Sys): (r: seq<bool>)
    requires |s.lanes| == 4
    ensures |r| == 4 && forall p: Priority :: r[p] == Busy(s.lanes[p])
  {
    [Busy(s.lanes[0]), Busy(s.lanes[1]), Busy(s.lanes[2]), Busy(s.lanes[3])]
  }

  predicate Settled(s: Sys)
    requires |s.lanes| == 4
  {
    forall p: Priority :: !s.lanes[p].lagIn
  }

  predicate Enabled(s: Sys, a: Action)
    requires |s.lanes| == 4
  {
    match a
    case TakeRefill(p) => s.lanes[p].hand.None? && s.lanes[p].booked.None? && s.lanes[p].refill != []
    case PublishRefill(p) => s.lanes[p].lagRe
    case Allocate(p) => s.lanes[p].hand.None? && s.lanes[p].booked.None? && s.lanes[p].refill == [] && !s.lanes[p].lagRe
    case Book(p, q) => s.lanes[p].hand.Some? && !s.lanes[p].lagRe && q == p
    case Commit(p) => s.lanes[p].hand.None? && s.lanes[p].booked.Some?
    case StartScan => Settled(s)
    case Visit => s.at < 4 && Settled(s)
    case PublishPull(p) => s.lanes[p].lagIn
    case Refill(p, id) => id in s.lanes[p].out && id in s.lanes[p].prio && Settled(s)
    case Destroy(p, id) => id in s.lanes[p].out && Settled(s)
  }

  /** `(allocated < capacity).then_some({ allocated += 1; alloc })`: the argument is evaluated either way. */
  function Draw(c: Config, l: Pool): Pool
  {
    var l' := l.(asked := l.asked + 1);
    if l.asked < c.capacity then l'.(hand := Some(l.created), created := l.created + 1) else l'
  }

  /** `book` refuses when the ring is full, and the batch is dropped with the error. */
  function BookLane(c: Config, l: Pool, q: Priority): (Pool, bool)
    requires l.hand.Some?
  {
    if |l.inout| + (if l.lagIn then 1 else 0) >= c.ring then
        (l.(hand := None, gone := l.gone + multiset{l.hand.value}), false)
    else (l.(hand := None, booked := l.hand, prio := l.prio[l.hand.value := q]), true)
  }

  function AddRefill(c: Config, l: Pool, id: nat): (Pool, bool)
  {
    if |l.refill| + (if l.lagRe then 1 else 0) >= c.ring then (l.(gone := l.gone + multiset{id}), false)
    else (l.(refill := l.refill + [id]), true)
  }

  function Apply(c: Config, s: Sys, a: Action): Sys
    requires |s.lanes| == 4 && Enabled(s, a)
  {
    match a
    case TakeRefill(p) =>
      var l := s.lanes[p];
      s.(lanes := s.lanes[p := l.(hand := Some(l.refill[0]), refill := l.refill[1..], lagRe := true)])
    case PublishRefill(p) => s.(lanes := s.lanes[p := s.lanes[p].(lagRe := false)])
    case Allocate(p) => s.(lanes := s.lanes[p := Draw(c, s.lanes[p])])
    case Book(p, q) =>
      var (l, ok) := BookLane(c, s.lanes[p], q);
      s.(lanes := s.lanes[p := l], faults := s.faults + if ok then 0 else 1)
    case Commit(p) =>
      var l := s.lanes[p];
      s.(lanes := s.lanes[p := l.(booked := None, inout := l.inout + [l.booked.value])])
    case StartScan => s.(at := 0, busy := BusyOf(s))
    case Visit =>
      var l := s.lanes[s.at];
      if l.inout != [] then
        s.(at := 4, lanes := s.lanes[s.at :=
            l.(inout := l.inout[1..], lagIn := true, out := l.out + multiset{l.inout[0]})])
      else if l.booked.Some? then s.(at := 4)
      else s.(at := s.at + 1)
    case PublishPull(p) => s.(lanes := s.lanes[p := s.lanes[p].(lagIn := false)])
    case Refill(p, id) =>
      var taken := s.lanes[p := s.lanes[p].(out := s.lanes[p].out - multiset{id})];
      var q := s.lanes[p].prio[id];
      var (l, ok) := AddRefill(c, taken[q], id);
      s.(lanes := taken[q := l], faults := s.faults + if ok then 0 else 1)
    case Destroy(p, id) =>
      var l := s.lanes[p];
      s.(lanes := s.lanes[p := l.(out := l.out - multiset{id}, gone := l.gone + multiset{id})])
  }

  // ---- the invariant ---------------------------------------------------------------------------

  function Opt(o: Option<nat>): multiset<nat>
  {
    if o.Some? then multiset{o.value} else multiset{}
  }

  /** Everywhere a batch of the priority can be. */
  function Places(l: Pool): multiset<nat>
  {
    Opt(l.hand) + Opt(l.booked) + multiset(l.inout) + multiset(l.refill) + l.out + l.gone
  }

  /** Every batch below n, once. */
  function AllBelow(n: nat): multiset<nat>
  {
    if n == 0 then multiset{} else AllBelow(n - 1) + multiset{n - 1}
  }

  lemma {:induction false} AllBelowSize(n: nat)
    ensures |AllBelow(n)| == n && forall i: nat :: AllBelow(n)[i] == if i < n then 1 else 0
  {
    if n > 0 {
      AllBelowSize(n - 1);
    }
  }

  /** Every batch is in one place, and the flags agree with where. */
  ghost predicate Counted(c: Config, l: Pool)
  {
    && Places(l) == AllBelow(l.created)
    && l.created == (if l.asked < c.capacity then l.asked else c.capacity)
    && (l.lagIn ==> |l.out| >= 1) && (l.lagRe ==> l.hand.Some?) && (l.hand.Some? ==> l.booked.None?)
  }

  predicate Home(l: Pool, id: nat, p: Priority)
  {
    id in l.prio && l.prio[id] == p
  }

  /** Every batch on its way to the writer and back carries its own lane's priority. */
  ghost predicate Homed(l: Pool, p: Priority)
  {
    && (l.booked.Some? ==> Home(l, l.booked.value, p))
    && (forall i :: 0 <= i < |l.inout| ==> Home(l, l.inout[i], p))
    && (forall id: nat :: id in l.out ==> Home(l, id, p))
  }

  ghost predicate LaneInv(c: Config, l: Pool, p: Priority)
  {
    Counted(c, l) && Homed(l, p)
  }

  ghost predicate Inv(c: Config, s: Sys)
  {
    c.capacity <= c.ring && ScanOk(s) && s.faults == 0 && forall p: Priority :: LaneInv(c, s.lanes[p], p)
  }

  /** The places add up. */
  lemma PlacesAddUp(c: Config, l: Pool, p: Priority)
    requires LaneInv(c, l, p)
    ensures |Opt(l.hand)| + |Opt(l.booked)| + |l.inout| + |l.refill| + |l.out| + |l.gone| == l.created <= c.capacity
  {
    AllBelowSize(l.created);
  }

  // ---- every step ------------------------------------------------------------------------------

  lemma MovedHead(s: seq<nat>)
    requires s != []
    ensures multiset(s) == multiset{s[0]} + multiset(s[1..])
  {
    assert s == [s[0]] + s[1..];
  }

  lemma SameHomes(l: Pool, l': Pool, p: Priority)
    requires Homed(l, p) && l'.booked == l.booked && l'.inout == l.inout && l'.out <= l.out && l'.prio == l.prio
    ensures Homed(l', p)
  {}

  lemma TakeRefillKeeps(c: Config, l: Pool, p: Priority)
    requires LaneInv(c, l, p) && l.hand.None? && l.booked.None? && l.refill != []
    ensures LaneInv(c, l.(hand := Some(l.refill[0]), refill := l.refill[1..], lagRe := true), p)
  {
    hide Homed, AllBelow;
    var l' := l.(hand := Some(l.refill[0]), refill := l.refill[1..], lagRe := true);
    MovedHead(l.refill);
    assert Places(l') == Places(l);
    SameHomes(l, l', p);
  }

  lemma DrawKeeps(c: Config, l: Pool, p: Priority)
    requires LaneInv(c, l, p) && l.hand.None? && l.booked.None? && !l.lagRe
    ensures LaneInv(c, Draw(c, l), p)
  {
    hide Homed, Places, AllBelow;
    NewInHand(l, l.asked + 1);
    AllBelowNext(l.created);
    SameHomes(l, Draw(c, l), p);
  }

  lemma AllBelowNext(n: nat)
    ensures AllBelow(n + 1) == AllBelow(n) + multiset{n}
  {}

  lemma NewInHand(l: Pool, n: nat)
    requires l.hand.None?
    ensures Places(l.(asked := n, hand := Some(l.created), created := l.created + 1)) == Places(l) + multiset{l.created}
    ensures Places(l.(asked := n)) == Places(l)
  {
    var rest := Opt(l.booked) + multiset(l.inout) + multiset(l.refill) + l.out + l.gone;
    assert Places(l) == rest;
    hide Opt;
  }

  /** A batch in hand always finds a free slot. */
  lemma BookKeeps(c: Config, l: Pool, p: Priority)
    requires LaneInv(c, l, p) && l.hand.Some? && !l.lagRe && c.capacity <= c.ring
    ensures BookLane(c, l, p).1 && LaneInv(c, BookLane(c, l, p).0, p)
  {
    hide Homed, AllBelow;
    PlacesAddUp(c, l, p);
    var l' := BookLane(c, l, p).0;
    assert Places(l') == Places(l);
    Rehomed(l, l', l.hand.value, p);
  }

  lemma Rehomed(l: Pool, l': Pool, id: nat, p: Priority)
    requires Homed(l, p) && l' == l.(hand := None, booked := Some(id), prio := l.prio[id := p])
    ensures Homed(l', p)
  {}

  lemma CommitKeeps(c: Config, l: Pool, p: Priority)
    requires LaneInv(c, l, p) && l.hand.None? && l.booked.Some?
    ensures LaneInv(c, l.(booked := None, inout := l.inout + [l.booked.value]), p)
  {
    var l' := l.(booked := None, inout := l.inout + [l.booked.value]);
    assert Homed(l', p) by { hide Places, Counted; }
    hide Homed, AllBelow;
    assert Places(l') == Places(l);
  }

  lemma VisitKeeps(c: Config, l: Pool, p: Priority)
    requires LaneInv(c, l, p) && l.inout != []
    ensures LaneInv(c, l.(inout := l.inout[1..], lagIn := true, out := l.out + multiset{l.inout[0]}), p)
  {
    VisitHomes(l, p);
    hide Homed, AllBelow, Places;
    Pulled(l);
  }

  lemma VisitHomes(l: Pool, p: Priority)
    requires Homed(l, p) && l.inout != []
    ensures Homed(l.(inout := l.inout[1..], lagIn := true, out := l.out + multiset{l.inout[0]}), p)
  {}

  lemma Pulled(l: Pool)
    requires l.inout != []
    ensures var l' := l.(inout := l.inout[1..], lagIn := true, out := l.out + multiset{l.inout[0]});
            Places(l') == Places(l) && |l'.out| >= 1
  {
    hide Opt;
    MovedHead(l.inout);
  }

  /** A returning batch goes back to its own lane and always finds room. */
  lemma RefillKeeps(c: Config, l: Pool, p: Priority, id: nat)
    requires LaneInv(c, l, p) && id in l.out && !l.lagIn && c.capacity <= c.ring
    ensures Home(l, id, p)
    ensures var (l', ok) := AddRefill(c, l.(out := l.out - multiset{id}), id); ok && LaneInv(c, l', p)
  {
    assert Home(l, id, p);
    hide Homed, AllBelow, Places;
    PlacesAddUp(c, l, p);
    PushedBack(l, id);
    SameHomes(l, AddRefill(c, l.(out := l.out - multiset{id}), id).0, p);
  }

  lemma PushedBack(l: Pool, id: nat)
    requires id in l.out
    ensures Places(l.(out := l.out - multiset{id}, refill := l.refill + [id])) == Places(l)
  {
    assert multiset(l.refill + [id]) == multiset(l.refill) + multiset{id};
    assert l.out == (l.out - multiset{id}) + multiset{id};
  }

  lemma DestroyKeeps(c: Config, l: Pool, p: Priority, id: nat)
    requires LaneInv(c, l, p) && id in l.out && !l.lagIn
    ensures LaneInv(c, l.(out := l.out - multiset{id}, gone := l.gone + multiset{id}), p)
  {
    hide Homed, AllBelow, Places;
    MovedOut(l, id);
    SameHomes(l, l.(out := l.out - multiset{id}, gone := l.gone + multiset{id}), p);
  }

  lemma MovedOut(l: Pool, id: nat)
    requires id in l.out
    ensures Places(l.(out := l.out - multiset{id}, gone := l.gone + multiset{id})) == Places(l)
  {
    hide Opt;
    assert l.out == (l.out - multiset{id}) + multiset{id};
  }

  lemma PublishKeeps(c: Config, l: Pool, p: Priority)
    requires LaneInv(c, l, p)
    ensures LaneInv(c, l.(lagRe := false), p) && LaneInv(c, l.(lagIn := false), p)
  {
    hide Homed, AllBelow;
    assert Places(l.(lagRe := false)) == Places(l) == Places(l.(lagIn := false));
    SameHomes(l, l.(lagRe := false), p);
    SameHomes(l, l.(lagIn := false), p);
  }

  lemma StepKeeps(c: Config, s: Sys, a: Action)
    requires Inv(c, s) && Enabled(s, a)
    ensures Inv(c, Apply(c, s, a))
  {
    hide LaneInv, Apply, Enabled, Busy;
    ScanStep(c, s, a);
    LaneStep(c, s, a);
  }

  lemma LaneStep(c: Config, s: Sys, a: Action)
    requires Inv(c, s) && Enabled(s, a)
    ensures var s' := Apply(c, s, a);
            |s'.lanes| == 4 && s'.faults == 0 && forall p: Priority :: LaneInv(c, s'.lanes[p], p)
  {
    hide LaneInv, Places, BookLane, AddRefill, Draw, Busy;
    match a
    case TakeRefill(p) => TakeRefillKeeps(c, s.lanes[p], p);
    case PublishRefill(p) => PublishKeeps(c, s.lanes[p], p);
    case Allocate(p) => DrawKeeps(c, s.lanes[p], p);
    case Book(p, q) => BookKeeps(c, s.lanes[p], p);
    case Commit(p) => CommitKeeps(c, s.lanes[p], p);
    case StartScan =>
    case Visit => if s.lanes[s.at].inout != [] { VisitKeeps(c, s.lanes[s.at], s.at); }
    case PublishPull(p) => PublishKeeps(c, s.lanes[p], p);
    case Refill(p, id) => RefillKeeps(c, s.lanes[p], p, id);
    case Destroy(p, id) => DestroyKeeps(c, s.lanes[p], p, id);
  }

  /** Only the puller takes a lane's batches, and a booked batch can only become a committed one. */
  lemma BusyStays(c: Config, s: Sys, a: Action, p: Priority)
    requires |s.lanes| == 4 && Enabled(s, a) && Busy(s.lanes[p])
    requires a.Visit? ==> s.at != p
    ensures |Apply(c, s, a).lanes| == 4 && Busy(Apply(c, s, a).lanes[p])
  {}

  /** Every lane that was busy when the scan began is still to come, and still busy. */
  predicate ScanOk(s: Sys)
  {
    && |s.lanes| == 4 && |s.busy| == 4 && s.at <= 4
    && (s.at < 4 ==> forall p: Priority :: s.busy[p] ==> p >= s.at && Busy(s.lanes[p]))
  }

  lemma ScanMoves(c: Config, s: Sys, a: Action)
    requires |s.lanes| == 4 && Enabled(s, a)
    ensures var s' := Apply(c, s, a);
            && |s'.lanes| == 4
            && (!a.StartScan? && !a.Visit? ==> s'.at == s.at && s'.busy == s.busy)
            && (a.StartScan? ==> s' == s.(at := 0, busy := BusyOf(s)))
            && (a.Visit? ==> s.at < 4 && s'.busy == s.busy)
            && (a.Visit? ==> s'.at == 4 || (s' == s.(at := s.at + 1) && !Busy(s.lanes[s.at])))
  {
    hide BookLane, AddRefill, Draw, BusyOf;
  }

  lemma ScanStep(c: Config, s: Sys, a: Action)
    requires ScanOk(s) && Enabled(s, a)
    ensures ScanOk(Apply(c, s, a))
  {
    hide Apply, Enabled, Busy;
    var s' := Apply(c, s, a);
    ScanMoves(c, s, a);
    if s'.at < 4 {
      forall p: Priority | s'.busy[p] ensures p >= s'.at && Busy(s'.lanes[p]) {
        if !a.StartScan? && !a.Visit? {
          BusyStays(c, s, a, p);
        }
      }
    }
  }

  // ---- every run -------------------------------------------------------------------------------

  lemma InitInv(c: Config)
    requires c.capacity <= c.ring
    ensures Inv(c, INIT_SYS)
  {
    EmptyLaneInv(c, 0);
    EmptyLaneInv(c, 1);
    EmptyLaneInv(c, 2);
    EmptyLaneInv(c, 3);
    hide LaneInv;
  }

  lemma EmptyLaneInv(c: Config, p: Priority)
    ensures LaneInv(c, EMPTY_POOL, p)
  {
    assert Places(EMPTY_POOL) == multiset{};
  }

  ghost predicate IsRun(c: Config, states: seq<Sys>, acts: seq<Action>)
  {
    && |states| == |acts| + 1 && states[0] == INIT_SYS
    && forall i :: 0 <= i < |acts| ==>
         |states[i].lanes| == 4 && Enabled(states[i], acts[i]) && states[i + 1] == Apply(c, states[i], acts[i])
  }

  lemma {:induction false} RunKeeps(c: Config, states: seq<Sys>, acts: seq<Action>, n: nat)
    requires c.capacity <= c.ring && IsRun(c, states, acts) && n <= |acts|
    ensures Inv(c, states[n])
  {
    hide Inv, Apply, Enabled;
    if n == 0 {
      InitInv(c);
    } else {
      RunKeeps(c, states, acts, n - 1);
      StepKeeps(c, states[n - 1], acts[n - 1]);
    }
  }

  /** Conservation: after any run, each of a priority's batches is in exactly one place, there are never more than
      min(allocated, capacity) of them, no booking was ever refused and no returning batch ever lost to a full ring. */
  lemma PoolConserved(c: Config, states: seq<Sys>, acts: seq<Action>, n: nat, p: Priority)
    requires c.capacity <= c.ring && IsRun(c, states, acts) && n <= |acts|
    ensures var s := states[n];
            && |s.lanes| == 4 && s.faults == 0
            && var l := s.lanes[p];
               && l.created == (if l.asked < c.capacity then l.asked else c.capacity)
               && (forall id: nat ::
                     Opt(l.hand)[id] + Opt(l.booked)[id] + multiset(l.inout)[id] + multiset(l.refill)[id] +
                         l.out[id] + l.gone[id]
                     == if id < l.created then 1 else 0)
  {
    RunKeeps(c, states, acts, n);
    var l := states[n].lanes[p];
    AllBelowSize(l.created);
    forall id: nat
      ensures Opt(l.hand)[id] + Opt(l.booked)[id] + multiset(l.inout)[id] + multiset(l.refill)[id] + l.out[id] +
              l.gone[id]
           == if id < l.created then 1 else 0
    {
      assert Places(l)[id] == AllBelow(l.created)[id];
    }
  }

  /** Strict priority: when a scan takes a batch from lane p, no higher lane held or was filling a batch when it
      began. */
  lemma StrictPriority(c: Config, states: seq<Sys>, acts: seq<Action>, n: nat)
    requires c.capacity <= c.ring && IsRun(c, states, acts) && n < |acts| && acts[n] == Visit
    ensures var s := states[n];
            && |s.lanes| == 4 && |s.busy| == 4 && s.at < 4
            && (s.lanes[s.at].inout != [] ==> forall q: Priority :: q < s.at ==> !s.busy[q])
  {
    RunKeeps(c, states, acts, n);
  }

  // ---- what each step answers ------------------------------------------------------------------

  /** The stage's side: a recycled batch is the one that came back first, a new one is given out while the capacity
      lasts, and a batch in hand becomes the booked one. */
  lemma StageGets(c: Config, s: Sys, a: Action, p: Priority)
    requires Inv(c, s) && Enabled(s, a)
    ensures var (l, s') := (s.lanes[p], Apply(c, s, a));
            && |s'.lanes| == 4
            && var l' := s'.lanes[p];
               && (a == TakeRefill(p) ==> l'.hand == Some(l.refill[0]) && l.refill == [l.refill[0]] + l'.refill)
               && (a == Allocate(p) ==> l'.hand == if l.asked < c.capacity then Some(l.created) else None)
               && (a == Book(p, p) ==> l'.booked == l.hand && l'.hand == None)
               && (a == Commit(p) ==> l'.booked == None)
  {
    hide LaneInv, Busy, AddRefill;
    if a.Book? {
      BookKeeps(c, s.lanes[a.p], a.p);
    }
  }

  /** The puller's side: from a lane that holds batches it takes the oldest, and only that, and the scan ends; a lane
      that only fills one ends the scan with nothing taken; over an empty one it moves on. */
  lemma VisitTakes(c: Config, s: Sys)
    requires ScanOk(s) && Enabled(s, Visit)
    ensures var (l, s') := (s.lanes[s.at], Apply(c, s, Visit));
            && |s'.lanes| == 4
            && (forall q: Priority :: q != s.at ==> s'.lanes[q] == s.lanes[q])
            && var l' := s'.lanes[s.at];
               && (l.inout != [] ==>
                     s'.at == 4 && l.inout == [l.inout[0]] + l'.inout && l'.out == l.out + multiset{l.inout[0]}
                     && l'.booked == l.booked && l'.refill == l.refill)
               && (l.inout == [] ==> l' == l && s'.at == if l.booked.Some? then 4 else s.at + 1)
  {}

  /** What happened to a lane's batches so far: committed, taken by the puller, brought back, taken for reuse,
      destroyed, each in order. */
  datatype Log = Log(put: seq<nat>, took: seq<nat>, back: seq<nat>, again: seq<nat>, ended: seq<nat>)

  function Noted(s: Sys, a: Action, p: Priority, log: Log): Log
    requires |s.lanes| == 4 && Enabled(s, a)
  {
    match a
    case Commit(q) => if q == p then log.(put := log.put + [s.lanes[p].booked.value]) else log
    case Visit => if s.at == p && s.lanes[p].inout != [] then log.(took := log.took + [s.lanes[p].inout[0]]) else log
    case Refill(q, id) => if q == p then log.(back := log.back + [id]) else log
    case TakeRefill(q) => if q == p then log.(again := log.again + [s.lanes[p].refill[0]]) else log
    case Destroy(q, id) => if q == p then log.(ended := log.ended + [id]) else log
    case _ => log
  }

  function LogOf(c: Config, states: seq<Sys>, acts: seq<Action>, p: Priority, n: nat): Log
    requires IsRun(c, states, acts) && n <= |acts|
  {
    if n == 0 then Log([], [], [], [], []) else Noted(states[n - 1], acts[n - 1], p, LogOf(c, states, acts, p, n - 1))
  }

  /** Both rings are queues, and what the puller took is with it, brought back, or destroyed. */
  ghost predicate Explained(l: Pool, log: Log)
  {
    && log.put == log.took + l.inout
    && log.back == log.again + l.refill
    && l.gone == multiset(log.ended)
    && multiset(log.took) == l.out + multiset(log.back) + multiset(log.ended)
  }

  lemma CommitExplained(l: Pool, log: Log, id: nat)
    requires Explained(l, log)
    ensures Explained(l.(booked := None, inout := l.inout + [id]), log.(put := log.put + [id]))
  {
    assert (log.took + l.inout) + [id] == log.took + (l.inout + [id]);
  }

  lemma VisitExplained(l: Pool, log: Log)
    requires Explained(l, log) && l.inout != []
    ensures Explained(l.(inout := l.inout[1..], lagIn := true, out := l.out + multiset{l.inout[0]}),
                log.(took := log.took + [l.inout[0]]))
  {
    assert log.took + l.inout == (log.took + [l.inout[0]]) + l.inout[1..];
  }

  lemma RefillExplained(l: Pool, log: Log, id: nat)
    requires Explained(l, log) && id in l.out
    ensures Explained(l.(out := l.out - multiset{id}, refill := l.refill + [id]), log.(back := log.back + [id]))
  {
    assert (log.again + l.refill) + [id] == log.again + (l.refill + [id]);
    assert l.out == (l.out - multiset{id}) + multiset{id};
  }

  lemma TakeExplained(l: Pool, log: Log)
    requires Explained(l, log) && l.refill != []
    ensures Explained(l.(hand := Some(l.refill[0]), refill := l.refill[1..], lagRe := true),
                log.(again := log.again + [l.refill[0]]))
  {
    assert log.again + l.refill == (log.again + [l.refill[0]]) + l.refill[1..];
  }

  lemma DestroyExplained(l: Pool, log: Log, id: nat)
    requires Explained(l, log) && id in l.out
    ensures Explained(l.(out := l.out - multiset{id}, gone := l.gone + multiset{id}), log.(ended := log.ended + [id]))
  {
    assert l.out == (l.out - multiset{id}) + multiset{id};
  }

  lemma SameLog(l: Pool, l': Pool, log: Log)
    requires Explained(l, log) && l'.inout == l.inout && l'.refill == l.refill && l'.out == l.out && l'.gone == l.gone
    ensures Explained(l', log)
  {}

  lemma ExplainedStep(c: Config, s: Sys, a: Action, p: Priority, log: Log)
    requires Inv(c, s) && Enabled(s, a) && Explained(s.lanes[p], log)
    ensures var s' := Apply(c, s, a); |s'.lanes| == 4 && Explained(s'.lanes[p], Noted(s, a, p, log))
  {
    hide Explained, LaneInv, Busy;
    var l := s.lanes[p];
    match a
    case Commit(q) => if q == p { CommitExplained(l, log, l.booked.value); }
    case Visit => if s.at == p && l.inout != [] { VisitExplained(l, log); }
    case TakeRefill(q) => if q == p { TakeExplained(l, log); }
    case Refill(q, id) =>
      RefillKeeps(c, s.lanes[q], q, id);
      if q == p { RefillExplained(l, log, id); }
    case Destroy(q, id) => if q == p { DestroyExplained(l, log, id); }
    case Book(q, x) =>
      BookKeeps(c, s.lanes[q], q);
      SameLog(l, Apply(c, s, a).lanes[p], log);
    case _ => SameLog(l, Apply(c, s, a).lanes[p], log);
  }

  /** Batches leave for the writer in the order in which they were committed, and are reused in the order in which they
      came back; each batch the puller took is still with it, was brought back or destroyed, and none was lost in any
      other way. */
  lemma {:induction false} PoolIsFifo(c: Config, states: seq<Sys>, acts: seq<Action>, n: nat, p: Priority)
    requires c.capacity <= c.ring && IsRun(c, states, acts) && n <= |acts|
    ensures |states[n].lanes| == 4 && Explained(states[n].lanes[p], LogOf(c, states, acts, p, n))
  {
    hide Inv, Apply, Enabled, Explained, Noted;
    if n == 0 {
      assert Explained(EMPTY_POOL, Log([], [], [], [], [])) by { NothingYet(); }
    } else {
      PoolIsFifo(c, states, acts, n - 1, p);
      RunKeeps(c, states, acts, n - 1);
      ExplainedStep(c, states[n - 1], acts[n - 1], p, LogOf(c, states, acts, p, n - 1));
    }
  }

  lemma NothingYet()
    ensures Explained(EMPTY_POOL, Log([], [], [], [], []))
  {}
}
