/** src/pipeline/tx.rs, `StageInPrio::push`, seen by its caller: where the message is afterwards, what was committed
    on the way, and what the answer says about it. */
module TxAnswers {
  import opened Base
  import opened Codec
  import opened TxSpec

  /** The message goes into the frame that is booked already. */
  predicate Joins(bs: BatchSize, st: Stage, m: Msg, qos: QoS)
  {
    && st.open.Some? && st.open.value.FrameBatch? && st.open.value.qos.cc == qos.cc
    && Fits(bs, Append(st.open.value, m))
  }

  /** The message needs no fragments. */
  predicate GoesInFrame(bs: BatchSize, st: Stage, m: Msg, qos: QoS)
  {
    Joins(bs, st, m, qos) || Fits(bs, FrameBatch(qos, NextSeq(SeqOf(st, qos.cc)), [m]))
  }

  /** A frame of the message's class whose last message it is. */
  predicate EndsFrame(b: Batch, m: Msg, cc: CongestionControl)
  {
    b.FrameBatch? && b.qos.cc == cc && b.msgs != [] && b.msgs[|b.msgs| - 1] == m
  }

  /** The last committed batch ends the message: a frame it ends, or its Last fragment after all the others. */
  ghost predicate EndsStream(bs: BatchSize, st: Stage, out: seq<Batch>, m: Msg, qos: QoS)
  {
    && out != []
    && (EndsFrame(out[|out| - 1], m, qos.cc)
        || exists l: seq<Batch> :: EndsIn(out, l) && IsCut(l, m, qos, NextSeq(SeqOf(st, qos.cc))))
  }

  predicate EndsIn(out: seq<Batch>, l: seq<Batch>)
  {
    |l| <= |out| && out[|out| - |l|..] == l
  }

  /** All the fragments of m, in order. */
  ghost predicate IsCut(l: seq<Batch>, m: Msg, qos: QoS, s: SeqNum)
  {
    && |l| >= 2 && l[0].FragBatch?
    && (forall i :: 0 <= i < |l| ==> l[i].FragBatch? && FragAt(l[i], qos, s, l[0].fragId, true, i, |l|))
    && Payloads(l) == EncodeMsg(m)
  }

  /** Batches booked so far, committed ones included. */
  function Booked(st: Stage): nat
  {
    |st.out| + if st.open.Some? then 1 else 0
  }

  /** Where the message is, for each answer. */
  ghost predicate Placed(bs: BatchSize, st: Stage, st': Stage, r: SendResult, m: Msg, qos: QoS, env: Env)
  {
    // the message sits in the booked frame, last, exactly when the answer asks the caller to notify
    && (r == Pushed(true) <==> st'.open.Some?)
    && (st'.open.Some? ==> EndsFrame(st'.open.value, m, qos.cc) && !qos.express && !env.flush)
    // otherwise a push that succeeds has committed it, last
    && (r == Pushed(false) ==> EndsStream(bs, st, st'.out, m, qos))
    // which of the two it is depends on the message, its express bit and the flush request alone
    && (r.Pushed? ==> (r == Pushed(true) <==> GoesInFrame(bs, st, m, qos) && !qos.express && !env.flush))
  }

  /** What was committed on the way. */
  ghost predicate Earlier(bs: BatchSize, st: Stage, st': Stage, m: Msg, qos: QoS)
  {
    && st.out <= st'.out
    // a message that joins the booked frame commits no other batch
    && (Joins(bs, st, m, qos) ==>
          if st'.open.Some? then st' == st.(open := Some(Append(st.open.value, m)))
          else st'.out == st.out + [Append(st.open.value, m)])
    // one that does not commits that frame as it is, first
    && (st.open.Some? && !Joins(bs, st, m, qos) ==> st.out + [st.open.value] <= st'.out)
  }

  /** Every commit is notified and every fresh batch granted, and the push fails at the first that is not, only there.
      */
  ghost predicate Accounted(st: Stage, st': Stage, r: SendResult, env: Env)
  {
    && |st'.out| - |st.out| <= env.notifies + 1 && Booked(st') - Booked(st) <= env.grants
    && (env.denial != Closed ==>
          && (r == Failed(Closed) <==> |st'.out| - |st.out| == env.notifies + 1)
          && (r.Failed? && r != Failed(Closed) ==> r == Failed(env.denial) && Booked(st') - Booked(st) == env.grants))
  }

  lemma {:induction false} FragmentCount(l: seq<Batch>)
    requires forall i :: 0 <= i < |l| ==> l[i].FragBatch? && l[i].payload != []
    ensures |l| <= |Payloads(l)|
  {
    if l != [] {
      FragmentCount(l[1..]);
    }
  }

  /** The fragments of a message, and no more of them than it has bytes. */
  lemma CutOf(bs: BatchSize, qos: QoS, s: SeqNum, id: SeqNum, m: Msg)
    requires !Fits(bs, FrameBatch(qos, s, [m]))
    ensures var l := FragmentsOf(bs, qos, s, id, m); IsCut(l, m, qos, s) && |l| <= |EncodeMsg(m)|
  {
    FragmentShape(bs, qos, s, id, m);
    FirstHasBytes(bs, qos, s, id, m);
    var l := FragmentsOf(bs, qos, s, id, m);
    hide Fits, FragmentsOf, EncodeMsg, Wire, SeqPlus;
    assert FragAt(l[0], qos, s, id, true, 0, |l|);
    hide FragAt;
    FragmentCount(l);
  }

  lemma FirstHasBytes(bs: BatchSize, qos: QoS, s: SeqNum, id: SeqNum, m: Msg)
    requires !Fits(bs, FrameBatch(qos, s, [m]))
    ensures var l := FragmentsOf(bs, qos, s, id, m); l[0].FragBatch? && l[0].payload != []
  {
    OversizedLeavesRest(bs, qos, s, id, m);
    hide Fits, FragHeaderLen, EncodeMsg, RestFragments;
  }

  lemma FinishPlaces(bs: BatchSize, st: Stage, st1: Stage, m: Msg, qos: QoS, env: Env)
    requires st1.open.Some? && EndsFrame(st1.open.value, m, qos.cc) && GoesInFrame(bs, st, m, qos)
    ensures var (st', r) := Finish(st1, qos.express, env); Placed(bs, st, st', r, m, qos, env)
  {
    hide GoesInFrame, IsCut;
  }

  lemma FragmentsPlace(bs: BatchSize, st: Stage, st0: Stage, m: Msg, qos: QoS, env: Env)
    requires st.open.None? && SeqOf(st, qos.cc) == SeqOf(st0, qos.cc) && !GoesInFrame(bs, st0, m, qos)
    requires !Fits(bs, FrameBatch(qos, NextSeq(SeqOf(st, qos.cc)), [m])) && env.grants > 0
    ensures var (st', r) := PushFragments(bs, st, m, qos, env.(grants := env.grants - 1));
            Placed(bs, st0, st', r, m, qos, env) && Accounted(st, st', r, env) && st.out <= st'.out
  {
    var s, fid := NextSeq(SeqOf(st, qos.cc)), NextSeq(st.fragId);
    var l := FragmentsOf(bs, qos, s, fid, m);
    CutOf(bs, qos, s, fid, m);
    hide GoesInFrame, Fits, FragmentsOf, IsCut, NextSeq;
    var k := Committed(|l|, env.grants - 1, env.notifies);
    CutPlaces(bs, st, st0, l, k, m, qos, env, AfterFragments(st, qos.cc, fid, l, k));
  }

  lemma CutPlaces(bs: BatchSize, st: Stage, st0: Stage, l: seq<Batch>, k: nat, m: Msg, qos: QoS, env: Env, st': Stage)
    requires st.open.None? && !GoesInFrame(bs, st0, m, qos) && IsCut(l, m, qos, NextSeq(SeqOf(st0, qos.cc)))
    requires 1 <= k <= |l| && env.grants > 0 && k == Committed(|l|, env.grants - 1, env.notifies)
    requires st'.open.None? && st'.out == st.out + l[..k]
    ensures var r := if env.notifies < k then SendResult.Failed(Closed) else if k == |l| then Pushed(false)
                     else SendResult.Failed(env.denial);
            Placed(bs, st0, st', r, m, qos, env) && Accounted(st, st', r, env) && st.out <= st'.out
  {
    hide GoesInFrame, IsCut;
    if k == |l| {
      assert l[..k] == l;
      assert EndsIn(st'.out, l);
      assert |l| >= 1 by { CutNotEmpty(l, m, qos, NextSeq(SeqOf(st0, qos.cc))); }
    }
  }

  lemma CutNotEmpty(l: seq<Batch>, m: Msg, qos: QoS, s: SeqNum)
    requires IsCut(l, m, qos, s)
    ensures |l| >= 1
  {}

  lemma FreshAnswers(bs: BatchSize, st: Stage, st0: Stage, m: Msg, qos: QoS, env: Env)
    requires st.open.None? && SeqOf(st, qos.cc) == SeqOf(st0, qos.cc) && !Joins(bs, st0, m, qos)
    ensures var (st', r) := PushFresh(bs, st, m, qos, env);
            Placed(bs, st0, st', r, m, qos, env) && Accounted(st, st', r, env) && st.out <= st'.out
  {
    hide Fits, Placed, Accounted, Finish, PushFragments;
    var s := NextSeq(SeqOf(st, qos.cc));
    if env.grants == 0 {
      NotGranted(bs, st, st0, m, qos, env);
    } else if Fits(bs, FrameBatch(qos, s, [m])) {
      var st1 := SetSeq(st, qos.cc, s).(open := Some(FrameBatch(qos, s, [m])));
      FinishPlaces(bs, st0, st1, m, qos, env);
      FinishAccounts(st, st1, qos.express, env);
    } else {
      FragmentsPlace(bs, st, st0, m, qos, env);
    }
  }

  lemma NotGranted(bs: BatchSize, st: Stage, st0: Stage, m: Msg, qos: QoS, env: Env)
    requires st.open.None? && env.grants == 0
    ensures Placed(bs, st0, st, Failed(env.denial), m, qos, env) && Accounted(st, st, Failed(env.denial), env)
  {
    hide GoesInFrame, EndsStream;
  }

  lemma FinishAccounts(st: Stage, st1: Stage, express: bool, env: Env)
    requires st.open.None? && st1.open.Some? && st1.out == st.out && env.grants > 0
    ensures var (st', r) := Finish(st1, express, env); Accounted(st, st', r, env) && st.out <= st'.out
  {}

  /** The whole answer of a push. */
  lemma PushAnswers(bs: BatchSize, st: Stage, m: Msg, qos: QoS, env: Env)
    requires st.open.Some? ==> st.open.value.FrameBatch?
    ensures var (st', r) := Push(bs, st, m, qos, env);
            Placed(bs, st, st', r, m, qos, env) && Earlier(bs, st, st', m, qos) && Accounted(st, st', r, env)
  {
    hide Fits, PushFresh, Placed, Accounted, Finish, GoesInFrame;
    if st.open.None? {
      FreshAnswers(bs, st, st, m, qos, env);
    } else if Joins(bs, st, m, qos) {
      JoinAnswers(bs, st, m, qos, env);
    } else if env.notifies == 0 {
      NotNotified(bs, st, m, qos, env);
    } else {
      var env1 := env.(notifies := env.notifies - 1);
      FreshAnswers(bs, Commit(st), st, m, qos, env1);
      var (st', r) := PushFresh(bs, Commit(st), m, qos, env1);
      CommittedFirst(bs, st, m, qos, env, st', r);
    }
  }

  lemma JoinAnswers(bs: BatchSize, st: Stage, m: Msg, qos: QoS, env: Env)
    requires Joins(bs, st, m, qos)
    ensures var (st', r) := Finish(st.(open := Some(Append(st.open.value, m))), qos.express, env);
            Placed(bs, st, st', r, m, qos, env) && Earlier(bs, st, st', m, qos) && Accounted(st, st', r, env)
  {
    hide Fits;
    var st1 := st.(open := Some(Append(st.open.value, m)));
    FinishPlaces(bs, st, st1, m, qos, env);
    hide Placed;
  }

  lemma NotNotified(bs: BatchSize, st: Stage, m: Msg, qos: QoS, env: Env)
    requires st.open.Some? && !Joins(bs, st, m, qos) && env.notifies == 0
    ensures var (st', r) := (Commit(st), SendResult.Failed(Closed));
            Placed(bs, st, st', r, m, qos, env) && Earlier(bs, st, st', m, qos) && Accounted(st, st', r, env)
  {
    hide GoesInFrame, EndsStream, Joins;
  }

  lemma CommittedFirst(bs: BatchSize, st: Stage, m: Msg, qos: QoS, env: Env, st': Stage, r: SendResult)
    requires st.open.Some? && !Joins(bs, st, m, qos) && env.notifies > 0
    requires var env1 := env.(notifies := env.notifies - 1);
             Placed(bs, st, st', r, m, qos, env1) && Accounted(Commit(st), st', r, env1) && Commit(st).out <= st'.out
    ensures Placed(bs, st, st', r, m, qos, env) && Earlier(bs, st, st', m, qos) && Accounted(st, st', r, env)
  {
    hide GoesInFrame, EndsStream, Joins;
  }

  /** A push never fails of itself: with a living puller and no end of batches it succeeds. */
  lemma PushSucceeds(bs: BatchSize, st: Stage, m: Msg, qos: QoS, env: Env)
    requires st.open.Some? ==> st.open.value.FrameBatch?
    requires env.grants > |EncodeMsg(m)| && env.notifies > |EncodeMsg(m)| + 1
    ensures Push(bs, st, m, qos, env).1.Pushed?
  {
    hide Fits, EncodeMsg, FragmentsOf, NextSeq;
    var s := NextSeq(SeqOf(st, qos.cc));
    assert SeqOf(Commit(st), qos.cc) == SeqOf(st, qos.cc) && Commit(st).fragId == st.fragId;
    if !Fits(bs, FrameBatch(qos, s, [m])) {
      CutOf(bs, qos, s, NextSeq(st.fragId), m);
    }
  }
}
