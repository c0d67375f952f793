/** src/pipeline/tx.rs, `WriteBatch` and `StageInPrio`: the imperative push, on real buffers and chunked messages,
    proved against the batch-level function `TxSpec.Push`. */
module TxStage {
  import opened Base
  import opened BytesBuf
  import opened BoxBuffer
  import opened Codec
  import opened TxSpec
  import Vle

  /** A batch once it is in the ring: two reserved length bytes and the frame, then the fragment chunks. */
  datatype WriteBatch = WriteBatch(qos: QoS, frame: seq<byte>, fragment: Bytes)

  const LEN_PREFIX: seq<byte> := [0, 0]

  /** The bytes of a batch are the reserved prefix and the wire form of what it means. */
  ghost predicate Carries(w: WriteBatch, b: Batch)
  {
    w.qos == b.qos && w.frame + Flat(w.fragment) == LEN_PREFIX + Wire(b) && |w.frame| >= 2
  }

  /** `Bytes::push` of each chunk in turn: empty chunks are ignored. */
  function PushAll(cs: Bytes, more: Bytes): Bytes
    decreases |more|
  {
    if more == [] then cs
    else PushAll(if more[0] == [] then cs else cs + [more[0]], more[1..])
  }

  lemma {:induction false} PushAllFlat(cs: Bytes, more: Bytes)
    ensures Flat(PushAll(cs, more)) == Flat(cs) + Flat(more)
    decreases |more|
  {
    if more != [] {
      FlatPush(cs, more[0]);
      PushAllFlat(if more[0] == [] then cs else cs + [more[0]], more[1..]);
    }
  }

  lemma PushedFlat(chunks: Bytes)
    ensures Flat(PushAll([], chunks)) == Flat(chunks)
  {
    PushAllFlat([], chunks);
  }

  class StageInPrio {
    const bs: BatchSize
    const frame: BoxBuf       // the booked batch's frame buffer
    var fragment: Bytes       // the booked batch's fragment chunks
    var qos: QoS              // the booked batch's QoS
    var booked: bool
    var reliable: SeqNum
    var bestEffort: SeqNum
    var fragId: SeqNum
    var out: seq<WriteBatch>  // committed batches, oldest first
    ghost var stage: Stage    // the same state, batch by batch

    /** Everything but the booked batch agrees with `stage`. */
    ghost predicate Counters()
      reads this, frame
    {
      && frame.Valid() && frame.buffer.Length == 2 + bs
      && reliable == stage.reliable && bestEffort == stage.bestEffort && fragId == stage.fragId
      && |out| == |stage.out| && forall i :: 0 <= i < |out| ==> Carries(out[i], stage.out[i])
    }

    /** The invariant of a free lock. */
    ghost predicate Valid()
      reads this, frame, frame.buffer
    {
      && Counters() && booked == stage.open.Some?
      && (booked ==> stage.open.value.FrameBatch? && stage.open.value.msgs != [])
      && (booked ==> fragment == [] && qos == stage.open.value.qos)
      && (booked ==> frame.Contents() == LEN_PREFIX + Wire(stage.open.value))
    }

    /** A batch has just been booked and nothing is written in it yet. */
    ghost predicate Fresh(q: QoS)
      reads this, frame, frame.buffer
    {
      Counters() && booked && stage.open.None? && fragment == [] && qos == q && frame.Contents() == LEN_PREFIX
    }

    constructor (bs: BatchSize)
      ensures Valid() && this.bs == bs && stage == INIT_STAGE && fresh(frame) && fresh(frame.buffer)
    {
      this.bs := bs;
      frame := new BoxBuf(2 + bs);
      fragment, qos, booked, out := [], QoS(1, Block, false), false, [];
      reliable, bestEffort, fragId := 0, 0, 0;
      stage := INIT_STAGE;
    }

    method SeqNum(cc: CongestionControl) returns (s: SeqNum)
      requires Counters()
      ensures s == SeqOf(stage, cc)
    {
      s := if cc.Drop? then bestEffort else reliable;
    }

    method SetSeqNum(cc: CongestionControl, s: SeqNum)
      requires Counters()
      modifies this`reliable, this`bestEffort, this`stage
      ensures Counters() && stage == SetSeq(old(stage), cc, s)
    {
      if cc.Drop? {
        bestEffort := s;
      } else {
        reliable := s;
      }
      stage := SetSeq(stage, cc, s);
    }

    /** `batch_or_return!` when nothing is booked: a fresh batch, or the refusal that ends the push. */
    method Acquire(q: QoS, grants: nat) returns (ok: bool, left: nat)
      requires Counters() && !booked && stage.open.None?
      modifies this`booked, this`qos, this`fragment, frame, frame.buffer
      ensures ok <==> grants > 0
      ensures ok ==> Fresh(q) && left == grants - 1
      ensures !ok ==> Counters() && !booked
    {
      if grants == 0 {
        return false, 0;
      }
      frame.Clear();
      var written := frame.WriteExact(LEN_PREFIX);
      booked, qos, fragment := true, q, [];
      return true, grants - 1;
    }

    /** `move_batch!`: the booked batch, which means b, joins the committed ones; then the puller is notified. */
    method MoveBatch(ghost b: Batch, notifies: nat) returns (ok: bool, left: nat)
      requires Counters() && booked && frame.len >= 2
      requires qos == b.qos && frame.Contents() + Flat(fragment) == LEN_PREFIX + Wire(b)
      modifies this`booked, this`out, this`stage
      ensures Counters() && !booked && stage == old(stage).(open := None, out := old(stage.out) + [b])
      ensures ok <==> notifies > 0
      ensures left == if ok then notifies - 1 else 0
    {
      hide Wire, Flat;
      out := out + [WriteBatch(qos, frame.buffer[..frame.len], fragment)];
      stage := stage.(open := None, out := stage.out + [b]);
      booked := false;
      if notifies == 0 {
        return false, 0;
      }
      return true, notifies - 1;
    }

    /** `return_notify!`. */
    method Finish(express: bool, env: Env) returns (r: SendResult)
      requires Valid() && booked
      modifies this`booked, this`out, this`stage
      ensures Valid()
      ensures (stage, r) == TxSpec.Finish(old(stage), express, env)
    {
      if express || env.flush {
        assert frame.Contents() + Flat(fragment) == LEN_PREFIX + Wire(stage.open.value);
        hide Wire, Flat;
        var ok, _ := MoveBatch(stage.open.value, env.notifies);
        r := if ok then Pushed(false) else Failed(Closed);
      } else {
        r := Pushed(true);
      }
    }

    /** Step 1: append to the booked frame, or rewind and leave it exactly as it was. */
    method TryAppend(msg: Bytes) returns (ok: bool)
      requires Valid() && booked && |Flat(msg)| < TWO64
      modifies frame, frame.buffer, this`stage
      ensures Valid() && booked
      ensures ok <==> Fits(bs, Append(old(stage).open.value, Flat(msg)))
      ensures stage == if ok then old(stage).(open := Some(Append(old(stage).open.value, Flat(msg)))) else old(stage)
    {
      hide EncodeMsg, Flat, EncodeMsgs, EncodeHeader;
      WireAppend(stage.open.value, Flat(msg));
      hide Wire;
      var mark := frame.Mark();
      ok := WriteMsg(frame, msg);
      if ok {
        stage := stage.(open := Some(Append(stage.open.value, Flat(msg))));
      } else {
        frame.Rewind(mark);
      }
    }

    /** Step 2: header and message in a fresh frame; the sequence number is taken only if both fit. */
    method TryFresh(msg: Bytes) returns (ok: bool)
      requires Fresh(qos) && |Flat(msg)| < TWO64
      modifies frame, frame.buffer, this`reliable, this`bestEffort, this`stage
      ensures ok <==> Fits(bs, FrameBatch(qos, NextSeq(SeqOf(old(stage), qos.cc)), [Flat(msg)]))
      ensures ok ==> Valid() && booked && stage == SetSeq(old(stage), qos.cc, NextSeq(SeqOf(old(stage), qos.cc)))
                       .(open := Some(FrameBatch(qos, NextSeq(SeqOf(old(stage), qos.cc)), [Flat(msg)])))
      ensures !ok ==> Fresh(qos) && stage == old(stage)
    {
      hide EncodeMsg, Flat, EncodeMsgs, EncodeHeader, NextSeq;
      var last := SeqNum(qos.cc);
      var s := NextSeq(last);
      WireSingle(qos, s, Flat(msg));
      hide Wire;
      var mark := frame.Mark();
      ok := WriteHeader(frame, Header(qos, s, Frame));
      if ok {
        ok := WriteMsg(frame, msg);
      }
      if ok {
        SetSeqNum(qos.cc, s);
        stage := stage.(open := Some(FrameBatch(qos, s, [Flat(msg)])));
      } else {
        frame.Rewind(mark);
      }
    }

    /** Header, total length and as many message bytes as the batch holds. Neither write can fail. */
    method FillFirst(msg: Bytes, s: SeqNum, id: SeqNum) returns (reader: BytesReader, ghost first: Batch)
      requires Fresh(qos) && |Flat(msg)| < TWO64
      requires !Fits(bs, FrameBatch(qos, s, [Flat(msg)]))
      modifies this`fragment, frame, frame.buffer
      ensures Counters() && frame.len >= 2 && first.qos == qos && first.seqNum == s
      ensures frame.Contents() + Flat(fragment) == LEN_PREFIX + Wire(first)
      ensures fresh(reader) && reader.Valid() && reader.chunks == msg && reader.Pos() < |Flat(msg)|
      ensures FragmentsOf(bs, qos, s, id, Flat(msg)) == [first] +
              RestFragments(bs, qos, NextSeq(s), id, Flat(msg)[reader.Pos()..])
    {
      hide Flat, EncodeHeader, Carries, Wire, Vle.Encode, EncodeMsg, FragHeaderLen, Fits, FragmentsOf, NextSeq,
          RestFragments;
      ghost var m := Flat(msg);
      FirstSplit(bs, qos, s, id, m);
      HeaderLenIs(qos, s, First, id);
      LenIsFlat(msg);
      var ok := StartFirst(frame, qos, s, id, Len(msg));
      assert ok;
      reader := new BytesReader(msg);
      var room := frame.Remaining();
      var read, chunks := reader.ReadChunks(room);
      assert read;
      PushedFlat(chunks);
      fragment := PushAll(fragment, chunks);
      first := FragBatch(qos, s, First, id, Vle.Encode(|m|) + m[..room]);
      FirstParts(first, Vle.Encode(|m|), m, room);
    }

    /** More, or Last when all that remains fits. */
    method FillNext(reader: BytesReader, s: SeqNum, id: SeqNum) returns (ghost b: Batch)
      requires Fresh(qos) && reader.Valid() && reader.Pos() < |reader.Data()|
      modifies this`fragment, frame, frame.buffer, reader
      ensures Counters() && frame.len >= 2 && b.qos == qos && b.seqNum == s
      ensures frame.Contents() + Flat(fragment) == LEN_PREFIX + Wire(b)
      ensures reader.Valid() && reader.Pos() > old(reader.Pos())
      ensures var l := RestFragments(bs, qos, s, id, reader.Data()[old(reader.Pos())..]);
              && l != [] && b == l[0]
              && l[1..] == if reader.Pos() < |reader.Data()| then
                 RestFragments(bs, qos, NextSeq(s), id, reader.Data()[reader.Pos()..]) else []
    {
      hide Flat, EncodeHeader, NextSeq, Carries;
      ghost var start, data := reader.Pos(), reader.Data();
      NextHeaderLen(qos, s, id);
      RestUnfold(bs, qos, s, id, data[start..]);
      hide Wire, Vle.Encode, FragHeaderLen, RestFragments;
      var remaining := frame.Remaining();
      var wCapacity := remaining - (2 + Vle.VleLen(s) + Vle.VleLen(id));
      var rCapacity := reader.Remaining();
      var kind := if wCapacity >= rCapacity then Last else More;
      var wrote := WriteHeader(frame, Header(qos, s, Fragment(kind, id)));
      assert wrote;
      var read, chunks := reader.ReadChunks(if rCapacity <= wCapacity then rCapacity else wCapacity);
      assert read;
      PushedFlat(chunks);
      fragment := PushAll(fragment, chunks);
      b := FragBatch(qos, s, kind, id, Flat(chunks));
      NextParts(b);
      NextPayload(data, start, reader.Pos());
    }

    /** One fragment a turn until the reader is empty, a batch is refused or the puller is gone. */
    method SendRest(reader: BytesReader, s0: SeqNum, id: SeqNum, env: Env, ghost st0: Stage, ghost l: seq<Batch>)
        returns (r: SendResult)
      requires Counters() && !booked && reader.Valid() && reader.Pos() < |reader.Data()| && env.notifies >= 1
      requires l != [] && l[1..] == RestFragments(bs, qos, s0, id, reader.Data()[reader.Pos()..])
      requires stage == AfterFragments(st0, qos.cc, id, l, 1)
      modifies this, frame, frame.buffer, reader
      ensures Counters() && !booked
      ensures var k := Committed(|l|, env.grants, env.notifies);
              stage == AfterFragments(st0, old(qos).cc, id, l, k) &&
              r == if env.notifies < k then Failed(Closed) else if k == |l| then Pushed(false) else Failed(env.denial)
    {
      hide Flat, Wire, RestFragments, Carries, NextSeq, AfterFragments;
      ghost var q, k := qos, 1;
      var s, grants, notifies, ok := s0, env.grants, env.notifies - 1, true;
      var remaining := reader.Remaining();
      while remaining > 0
        invariant reader.Valid() && remaining == |reader.Data()| - reader.Pos()
        invariant Counters() && !booked && qos == q && 1 <= k <= |l| && k <= env.notifies
        invariant notifies == env.notifies - k && grants == env.grants - (k - 1)
        invariant l[k..] == if remaining > 0 then RestFragments(bs, q, s, id, reader.Data()[reader.Pos()..]) else []
        invariant stage == AfterFragments(st0, q.cc, id, l, k)
        decreases remaining
      {
        NonEmptyRest(bs, q, s, id, reader.Data()[reader.Pos()..]);
        AfterOpen(st0, q.cc, id, l, k);
        ok, grants := Acquire(qos, grants);
        if !ok {
          return Failed(env.denial);
        }
        ghost var b := FillNext(reader, s, id);
        TailStep(l, k, b);
        AfterStep(st0, q.cc, id, l, k);
        SetSeqNum(qos.cc, s);
        ok, notifies := MoveBatch(b, notifies);
        k := k + 1;
        if !ok {
          return Failed(Closed);
        }
        s := NextSeq(s);
        remaining := reader.Remaining();
      }
      r := Pushed(false);
    }

    /** Step 3. */
    method SendFragments(msg: Bytes, env: Env) returns (r: SendResult)
      requires Fresh(qos) && |Flat(msg)| < TWO64
      requires !Fits(bs, FrameBatch(qos, NextSeq(SeqOf(stage, qos.cc)), [Flat(msg)]))
      modifies this, frame, frame.buffer
      ensures Valid() && (stage, r) == PushFragments(bs, old(stage), Flat(msg), old(qos), env)
    {
      hide Flat, EncodeMsg, Wire, FragHeaderLen, RestFragments, Carries, NextSeq, FragmentsOf;
      ghost var st0, m, q := stage, Flat(msg), qos;
      var last := SeqNum(qos.cc);
      var s := NextSeq(last);
      fragId := NextSeq(fragId);
      stage := stage.(fragId := fragId);
      var id := fragId;
      ghost var l := FragmentsOf(bs, q, s, id, m);
      var reader, first := FillFirst(msg, s, id);
      SetSeqNum(qos.cc, s);
      var ok, _ := MoveBatch(first, env.notifies);
      assert l[0] == first && l[..1] == [first] && l[1..] == RestFragments(bs, q, NextSeq(s), id, m[reader.Pos()..]);
      assert stage == AfterFragments(st0, q.cc, id, l, 1);
      if !ok {
        return Failed(Closed);
      }
      r := SendRest(reader, NextSeq(s), id, env, st0, l);
    }

    /** `WriteBatch::len`; it never exceeds the batch size, so the 16-bit length of the source does not truncate. */
    method BatchLen() returns (n: nat)
      requires frame.Valid() && frame.len >= 2
      ensures n == |frame.Contents() + Flat(fragment)| - 2
    {
      LenIsFlat(fragment);
      n := frame.len - 2 + Len(fragment);
    }

    /** `StageInPrio::push`, for every outcome the environment can impose. */
    method Push(msg: Bytes, q: QoS, env: Env) returns (r: SendResult)
      requires Valid() && |Flat(msg)| < TWO64
      modifies this, frame, frame.buffer
      ensures Valid() && (stage, r) == TxSpec.Push(bs, old(stage), Flat(msg), q, env)
    {
      hide Wire, Fits, Carries, PushFragments, SetSeq, SeqOf, NextSeq, Append;
      var rest, ok := env, true;
      if !booked {
        ok, rest := Take(q, rest);
        if !ok {
          return Failed(env.denial);
        }
      }
      if stage.open.Some? {
        WireNotEmpty(stage.open.value);
      }
      assert Flat([]) == [];
      hide Flat;
      var len := BatchLen();
      if len != 0 {
        if qos.cc == q.cc {
          var appended := TryAppend(msg);
          if appended {
            r := Finish(q.express, rest);
            return;
          }
        }
        ghost var open := stage.open.value;
        var notified, left := MoveBatch(open, rest.notifies);
        if !notified {
          return Failed(Closed);
        }
        rest := rest.(notifies := left);
        ok, rest := Take(q, rest);
        if !ok {
          return Failed(env.denial);
        }
      }
      var written := TryFresh(msg);
      if written {
        r := Finish(q.express, rest);
      } else {
        r := SendFragments(msg, rest);
      }
    }

    method Take(q: QoS, env: Env) returns (ok: bool, rest: Env)
      requires Counters() && !booked && stage.open.None?
      modifies this`booked, this`qos, this`fragment, frame, frame.buffer
      ensures ok <==> env.grants > 0
      ensures ok ==> Fresh(q) && rest == env.(grants := env.grants - 1)
      ensures !ok ==> Counters() && !booked && rest == env
    {
      hide Carries;
      var left;
      ok, left := Acquire(q, env.grants);
      rest := if ok then env.(grants := left) else env;
    }

    /** `flush`, by the puller or at shutdown: commits the booked frame as it stands. */
    method Flush() returns (any: bool)
      requires Valid()
      modifies this`booked, this`out, this`stage
      ensures Valid() && any == old(stage).open.Some? && stage == Commit(old(stage))
    {
      if booked {
        assert frame.Contents() + Flat(fragment) == LEN_PREFIX + Wire(stage.open.value);
        hide Wire, Flat;
        var _, _ := MoveBatch(stage.open.value, 1);
        return true;
      }
      return false;
    }
  }

  /** The header of a first fragment and the length it announces, on a batch of any size. When they do not fit, what did
      stays in the batch: nothing rewinds it, and the push returns its error with that batch booked. */
  method StartFirst(frame: BoxBuf, qos: QoS, s: SeqNum, id: SeqNum, len: u64) returns (ok: bool)
    requires frame.Valid()
    modifies frame, frame.buffer
    ensures frame.Valid() && old(frame.len) <= frame.len
    ensures ok <==> FirstHeaderLen(qos, s, id, len) <= frame.buffer.Length - old(frame.len)
    ensures ok ==> frame.Contents() ==
                   old(frame.Contents()) + (EncodeHeader(Header(qos, s, Fragment(First, id))) + Vle.Encode(len))
    ensures !ok && old(frame.len) < frame.buffer.Length ==>
              && old(frame.Contents()) < frame.Contents()
              && frame.Contents() < old(frame.Contents()) +
                 (EncodeHeader(Header(qos, s, Fragment(First, id))) + Vle.Encode(len))
  {
    hide EncodeHeader, Vle.Encode;
    ok := WriteHeader(frame, Header(qos, s, Fragment(First, id)));
    if ok {
      ok := frame.WriteVle(len);
    }
  }

  lemma WireNotEmpty(b: Batch)
    ensures Wire(b) != []
  {}

  lemma WireAppend(b: Batch, m: Msg)
    requires b.FrameBatch?
    ensures Wire(Append(b, m)) == Wire(b) + EncodeMsg(m)
  {
    EncodeMsgsAppend(b.msgs, m);
  }

  lemma WireSingle(qos: QoS, s: SeqNum, m: Msg)
    ensures Wire(FrameBatch(qos, s, [m])) == EncodeHeader(Header(qos, s, Frame)) + EncodeMsg(m)
  {
    assert EncodeMsgs([m]) == EncodeMsg(m) + EncodeMsgs([]);
  }

  lemma HeaderLenIs(qos: QoS, s: SeqNum, k: Kind, id: SeqNum)
    ensures FragHeaderLen(qos, s, k, id) == |EncodeHeader(Header(qos, s, Fragment(k, id)))|
  {}

  lemma NextHeaderLen(qos: QoS, s: SeqNum, id: SeqNum)
    ensures |EncodeHeader(Header(qos, s, Fragment(More, id)))| == 2 + Vle.VleLen(s) + Vle.VleLen(id)
    ensures |EncodeHeader(Header(qos, s, Fragment(Last, id)))| == 2 + Vle.VleLen(s) + Vle.VleLen(id)
    ensures FragHeaderLen(qos, s, More, id) == 2 + Vle.VleLen(s) + Vle.VleLen(id) <= 10
  {
    hide EncodeHeader, Vle.Encode, Vle.VleLen;
    HeaderSize(Header(qos, s, Fragment(More, id)));
    HeaderSize(Header(qos, s, Fragment(Last, id)));
    Vle.EncodeLength(s);
    Vle.EncodeLength(id);
  }

  /** FragmentsOf in terms of the message itself: the length, then the message from its first byte. */
  lemma FirstSplit(bs: BatchSize, qos: QoS, s: SeqNum, id: SeqNum, m: Msg)
    requires !Fits(bs, FrameBatch(qos, s, [m]))
    ensures var room := bs - FragHeaderLen(qos, s, First, id) - |Vle.Encode(|m|)|;
            && 0 <= room < |m|
            && FragmentsOf(bs, qos, s, id, m) ==
               [FragBatch(qos, s, First, id, Vle.Encode(|m|) + m[..room])] +
                   RestFragments(bs, qos, NextSeq(s), id, m[room..])
  {
    hide Fits, FragHeaderLen, Vle.Encode, NextSeq, RestFragments, EncodeMsg;
    OversizedLeavesRest(bs, qos, s, id, m);
    var n := bs - FragHeaderLen(qos, s, First, id);
    MsgParts(m);
    SplitAfter(Vle.Encode(|m|), m, n);
  }

  lemma MsgParts(m: Msg)
    ensures EncodeMsg(m) == Vle.Encode(|m|) + m && |EncodeMsg(m)| == |Vle.Encode(|m|)| + |m|
  {}

  lemma SplitAfter(head: seq<byte>, m: seq<byte>, n: nat)
    requires |head| <= n <= |head| + |m|
    ensures (head + m)[..n] == head + m[..n - |head|] && (head + m)[n..] == m[n - |head|..]
  {}

  lemma FirstParts(b: Batch, head: seq<byte>, m: seq<byte>, room: nat)
    requires b.FragBatch? && room <= |m| && b.payload == head + m[..room]
    ensures LEN_PREFIX + EncodeHeader(HeaderOf(b)) + head + m[..room] == LEN_PREFIX + Wire(b)
  {
    hide EncodeHeader;
  }

  lemma NonEmptyRest(bs: BatchSize, qos: QoS, s: SeqNum, id: SeqNum, data: seq<byte>)
    ensures RestFragments(bs, qos, s, id, data) != [] && RestFragments(bs, qos, s, id, data)[0].seqNum == s
  {}

  lemma TailStep(l: seq<Batch>, k: nat, b: Batch)
    requires k < |l| && b == l[k..][0]
    ensures l[k] == b && l[k + 1..] == l[k..][1..]
  {}

  lemma AfterOpen(st: Stage, cc: CongestionControl, id: SeqNum, l: seq<Batch>, k: nat)
    requires 1 <= k <= |l|
    ensures AfterFragments(st, cc, id, l, k).open.None?
  {}

  lemma AfterStep(st: Stage, cc: CongestionControl, id: SeqNum, l: seq<Batch>, k: nat)
    requires 1 <= k < |l|
    ensures var a := SetSeq(AfterFragments(st, cc, id, l, k), cc, l[k].seqNum);
            AfterFragments(st, cc, id, l, k + 1) ==
                a.(open := None, out := AfterFragments(st, cc, id, l, k).out + [l[k]])
  {
    assert l[..k + 1] == l[..k] + [l[k]];
  }

  lemma NextParts(b: Batch)
    requires b.FragBatch?
    ensures LEN_PREFIX + EncodeHeader(HeaderOf(b)) + b.payload == LEN_PREFIX + Wire(b)
  {
    hide EncodeHeader;
  }

  lemma NextPayload(data: seq<byte>, a: nat, b: nat)
    requires a <= b <= |data|
    ensures data[a..][..b - a] == data[a..b] && data[a..][b - a..] == data[b..]
    ensures b == |data| ==> data[a..b] == data[a..]
  {}

  /** RestFragments, unrolled once. */
  lemma RestUnfold(bs: BatchSize, qos: QoS, s: SeqNum, id: SeqNum, data: seq<byte>)
    ensures var room, l := bs - FragHeaderLen(qos, s, More, id), RestFragments(bs, qos, s, id, data);
            && l != []
            && (room >= |data| ==> l[0] == FragBatch(qos, s, Last, id, data) && l[1..] == [])
            && (room < |data| ==> l[0] == FragBatch(qos, s, More, id, data[..room]) &&
                                  l[1..] == RestFragments(bs, qos, NextSeq(s), id, data[room..]))
  {}
}
