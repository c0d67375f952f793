/** src/sync/event.rs: an event with one waiter and any number of notifying threads. The flag's operations are atomic;
    the threads' steps between them interleave freely, and a wait can be abandoned anywhere (its caller's timeout). */
module Event {

  const UNSET: bv8 := 0
  const OK: bv8 := 1
  const ERR: bv8 := 2

  datatype Answer = IsUnset | IsOk | IsErr

  function CheckFlag(f: bv8): (bv8, Answer)
  {
    (f & !OK, if f & ERR != 0 then IsErr else if f == OK then IsOk else IsUnset)
  }

  function SetFlag(f: bv8): (bv8, Answer)
  {
    (f | OK, if f & ERR != 0 then IsErr else IsOk)
  }

  class EventInner {
    var flag: bv8

    /** No bit but OK and ERR is ever set. */
    ghost predicate Valid()
      reads this
    {
      flag & !(OK | ERR) == 0
    }

    constructor ()
      ensures Valid() && flag & OK == 0 && flag & ERR == 0
    {
      flag := UNSET;
    }

    /** Takes a pending OK and keeps ERR, which wins over it. */
    method Check() returns (r: Answer)
      requires Valid()
      modifies this
      ensures Valid() && flag & OK == 0 && flag & ERR == old(flag) & ERR
      ensures r.IsErr? <==> old(flag) & ERR != 0
      ensures r.IsOk? <==> old(flag) & OK != 0 && old(flag) & ERR == 0
    {
      var f := flag;
      flag := flag & !OK;
      if f & ERR != 0 {
        return IsErr;
      }
      if f == OK {
        return IsOk;
      }
      r := IsUnset;
    }

    /** Leaves an OK pending and keeps ERR, which it reports: the other side is gone. */
    method Set() returns (r: Answer)
      requires Valid()
      modifies this
      ensures Valid() && flag & OK != 0 && flag & ERR == old(flag) & ERR
      ensures r.IsErr? <==> old(flag) & ERR != 0
      ensures r.IsOk? <==> old(flag) & ERR == 0
    {
      var f := flag;
      flag := flag | OK;
      r := if f & ERR != 0 then IsErr else IsOk;
    }

    /** The store half of `err`; a pending OK is lost. */
    method Err()
      modifies this
      ensures Valid() && flag & OK == 0 && flag & ERR != 0
    {
      flag := ERR;
    }

    /** Every atomic operation of the protocol below, performed on the flag: the machine's flag is this one, and it
        moves on the answers given here. */
    method Perform(s: State, a: Action) returns (r: Answer)
      requires Valid() && flag == s.flag && Enabled(s, a)
      modifies this
      ensures Valid() && flag == Next(s, a).flag
      ensures a.Set? ==> Next(s, a).waking == s.waking + if r.IsOk? then 1 else 0
      ensures a.Check? ==> Next(s, a).oks == s.oks + if r.IsOk? then 1 else 0
      ensures a.Check? ==> (r.IsUnset? <==> !Next(s, a).waiter.Outside?)
    {
      r := IsUnset;
      if a.Set? {
        r := Set();
      } else if a.Check? {
        r := Check();
      } else if a.Drop? {
        Err();
      }
    }
  }

  // ---- the protocol ----------------------------------------------------------------------------

  /** Where the waiting task is: outside `wait`, before its first check, about to listen, before the second check,
      asleep. */
  datatype Waiter = Outside | First | ToListen | Second | Parked

  datatype Listener = NoListener | Listening | Notified

  /** `waking`: notifiers between their `set` and their `notify`; `closing`: droppers between `store` and `notify`.
      The counters record set calls that reported success and waits that returned Ok; `news` that some set has succeeded
      since the last such wait. */
  datatype State = State(flag: bv8, waiter: Waiter, listener: Listener, waking: nat, closing: nat, sets: nat,
      oks: nat, news: bool)

  const INIT := State(UNSET, Outside, NoListener, 0, 0, 0, 0, false)

  datatype Action = Set | Wake | Drop | WakeErr | Enter | Check | Listen | Resume | Cancel

  predicate Enabled(s: State, a: Action)
  {
    match a
    case Set => true
    case Wake => s.waking > 0
    case Drop => true
    case WakeErr => s.closing > 0
    case Enter => s.waiter.Outside?
    case Check => s.waiter.First? || s.waiter.Second?
    case Listen => s.waiter.ToListen?
    case Resume => s.waiter.Parked? && s.listener.Notified?
    case Cancel => !s.waiter.Outside?
  }

  /** Notifying one listener: the only one there can be. */
  function Ring(l: Listener): Listener
  {
    if l.Listening? then Notified else l
  }

  function Next(s: State, a: Action): State
    requires Enabled(s, a)
  {
    match a
    case Set =>
      var (f, r) := SetFlag(s.flag);
      if r.IsErr? then s.(flag := f) else s.(flag := f, waking := s.waking + 1, sets := s.sets + 1, news := true)
    case Wake => s.(waking := s.waking - 1, listener := Ring(s.listener))
    case Drop => s.(flag := ERR, closing := s.closing + 1)
    case WakeErr => s.(closing := s.closing - 1, listener := Ring(s.listener))
    case Enter => s.(waiter := First)
    case Check =>
      var (f, r) := CheckFlag(s.flag);
      match r {
        case IsOk => s.(flag := f, waiter := Outside, listener := NoListener, oks := s.oks + 1, news := false)
        case IsErr => s.(flag := f, waiter := Outside, listener := NoListener)
        case IsUnset => s.(flag := f, waiter := if s.waiter.First? then ToListen else Parked)
      }
    case Listen => s.(waiter := Second, listener := Listening)
    case Resume => s.(waiter := First, listener := NoListener)
    case Cancel => s.(waiter := Outside, listener := NoListener)
  }

  predicate HasOk(s: State)
  {
    s.flag & OK != 0
  }

  predicate HasErr(s: State)
  {
    s.flag & ERR != 0
  }

  ghost predicate Inv(s: State)
  {
    && (s.flag == UNSET || s.flag == OK || s.flag == ERR || s.flag == ERR | OK)
    // a sleeper that nobody has notified yet sees every set and every drop coming
    && (s.waiter.Parked? && s.listener.Listening? && HasErr(s) ==> s.closing > 0)
    && (s.waiter.Parked? && s.listener.Listening? && HasOk(s) && !HasErr(s) ==> s.waking > 0)
    && (s.waiter.Second? || s.waiter.Parked? <==> !s.listener.NoListener?)
    // OK is exactly the news
    && (!HasErr(s) ==> (HasOk(s) <==> s.news))
    && s.oks + (if s.news then 1 else 0) <= s.sets
  }

  lemma StepKeeps(s: State, a: Action)
    requires Inv(s) && Enabled(s, a)
    ensures Inv(Next(s, a))
  {
    var s' := Next(s, a);
    assert OK | ERR == 3 && OK & ERR == 0;
    assert s'.flag == UNSET || s'.flag == OK || s'.flag == ERR || s'.flag == ERR | OK;
  }

  /** ERR, once stored, is never cleared, and no wait returns Ok after it. */
  lemma ErrIsForever(s: State, a: Action)
    requires Inv(s) && Enabled(s, a) && HasErr(s)
    ensures HasErr(Next(s, a)) && Next(s, a).oks == s.oks
  {
  }

  ghost predicate IsRun(states: seq<State>, acts: seq<Action>)
  {
    && |states| == |acts| + 1 && states[0] == INIT
    && forall i :: 0 <= i < |acts| ==> Enabled(states[i], acts[i]) && states[i + 1] == Next(states[i], acts[i])
  }

  lemma {:induction false} RunKeeps(states: seq<State>, acts: seq<Action>, n: nat)
    requires IsRun(states, acts) && n <= |acts|
    ensures Inv(states[n])
  {
    hide Next, Enabled, Inv;
    if n == 0 {
      assert Inv(INIT) by { InitInv(); }
    } else {
      RunKeeps(states, acts, n - 1);
      StepKeeps(states[n - 1], acts[n - 1]);
    }
  }

  lemma InitInv()
    ensures Inv(INIT)
  {
  }

  /** Where each step takes the waiting task. A wait ends only by a check that answers, or abandoned; a notified sleeper
      starts over, and nobody sleeps without having listened and then checked once more. */
  lemma WaiterMoves(s: State, a: Action)
    requires Inv(s) && Enabled(s, a)
    ensures var (w, w', r) := (s.waiter, Next(s, a).waiter, CheckFlag(s.flag).1);
            && (!w.Outside? && w'.Outside? <==> a.Cancel? || (a.Check? && !r.IsUnset?))
            && (r.IsUnset? <==> !HasOk(s) && !HasErr(s))
            && (w'.First? <==> a.Enter? || a.Resume? || (w.First? && !a.Check? && !a.Cancel?))
            && (w'.ToListen? <==> (a.Check? && r.IsUnset? && w.First?) || (w.ToListen? && !a.Listen? && !a.Cancel?))
            && (w'.Second? <==> a.Listen? || (w.Second? && !a.Check? && !a.Cancel?))
            && (w'.Parked? <==> (a.Check? && r.IsUnset? && w.Second?) || (w.Parked? && !a.Resume? && !a.Cancel?))
            && (Next(s, a).oks == s.oks + if a.Check? && r.IsOk? then 1 else 0)
  {
    assert s.flag == UNSET || s.flag == OK || s.flag == ERR || s.flag == ERR | OK;
  }

  /** Inside a wait, from step m to step n. */
  ghost predicate Waiting(states: seq<State>, m: nat, n: nat)
    requires n < |states|
  {
    forall i :: m < i <= n ==> !states[i].waiter.Outside?
  }

  lemma {:induction false} NoAnswerYet(states: seq<State>, acts: seq<Action>, m: nat, n: nat)
    requires IsRun(states, acts) && m < n <= |acts| && acts[m].Enter? && Waiting(states, m, n)
    ensures states[n].oks == states[m].oks
    decreases n
  {
    hide Next, Enabled, Inv;
    RunKeeps(states, acts, n - 1);
    WaiterMoves(states[n - 1], acts[n - 1]);
    if m + 1 < n {
      NoAnswerYet(states, acts, m, n - 1);
    }
  }

  /** A wait that ends was abandoned, without having consumed anything, or ends with the first check that had something
      to say, and says it: Ok, consuming the one notification pending, or the error. */
  lemma WaitAnswers(states: seq<State>, acts: seq<Action>, m: nat, n: nat)
    requires IsRun(states, acts) && m < n < |acts| && acts[m].Enter? && Waiting(states, m, n)
    requires states[n + 1].waiter.Outside?
    ensures var (s, s') := (states[n], states[n + 1]);
            || (acts[n].Cancel? && s'.oks == states[m].oks && s'.flag == s.flag)
            || (acts[n].Check? && HasErr(s) && s'.oks == states[m].oks)
            || (acts[n].Check? && !HasErr(s) && HasOk(s) && s.news && s'.oks == states[m].oks + 1 && !s'.news)
  {
    RunKeeps(states, acts, n);
    NoAnswerYet(states, acts, m, n);
    WaiterMoves(states[n], acts[n]);
    var s := states[n];
    assert s.flag == UNSET || s.flag == OK || s.flag == ERR || s.flag == ERR | OK;
  }

  /** No lost wake-up: whenever no notifier and no dropper has a wake step left, a parked waiter either has been
      notified or has nothing to see; and before that, each wake step still to come notifies it. */
  lemma NoLostWakeUp(states: seq<State>, acts: seq<Action>, n: nat)
    requires IsRun(states, acts) && n <= |acts| && states[n].waiter.Parked?
    ensures var s := states[n];
            && (s.waking == 0 && s.closing == 0 ==> s.listener.Notified? || (!HasOk(s) && !HasErr(s)))
            && (s.waking > 0 ==> Next(s, Wake).listener.Notified?)
            && (s.closing > 0 ==> Next(s, WakeErr).listener.Notified?)
  {
    RunKeeps(states, acts, n);
  }

  lemma {:induction false} ErrStays(states: seq<State>, acts: seq<Action>, n: nat, k: nat)
    requires IsRun(states, acts) && n <= k <= |acts| && HasErr(states[n])
    ensures HasErr(states[k]) && states[k].oks == states[n].oks
    decreases k
  {
    hide Next, Enabled, Inv, HasErr;
    if n < k {
      ErrStays(states, acts, n, k - 1);
      RunKeeps(states, acts, k - 1);
      ErrIsForever(states[k - 1], acts[k - 1]);
    }
  }

  /** Notifications are neither lost nor invented: while the event is open, a check succeeds exactly when some
      `notify` has succeeded since the last wait that did; and there are never more such waits than notifications. */
  lemma NewsIsExact(states: seq<State>, acts: seq<Action>, n: nat)
    requires IsRun(states, acts) && n <= |acts|
    ensures var s := states[n];
            && (!HasErr(s) ==> (CheckFlag(s.flag).1.IsOk? <==> s.news))
            && (HasErr(s) ==> CheckFlag(s.flag).1.IsErr?)
            && s.oks <= s.sets
  {
    RunKeeps(states, acts, n);
    var s := states[n];
    assert s.flag == UNSET || s.flag == OK || s.flag == ERR || s.flag == ERR | OK;
  }
}
