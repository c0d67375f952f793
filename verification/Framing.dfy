/** src/api/sender.rs and src/api/receiver.rs, between the pipeline and the socket: length stamps, coalesced vectored
    writes over a writer that takes what it likes, keep-alives, and the read loop that cuts the stream into batches
    again. */
module Framing {
  import opened Base
  import opened BytesBuf
  import opened TxSpec
  import TxStage

  /** `u16::to_le_bytes`, of the number truncated to sixteen bits. */
  function Le16(n: nat): seq<byte>
  {
    [n % 256, n / 256 % 256]
  }

  /** `u16::from_le_bytes`. */
  function U16(lo: byte, hi: byte): nat
  {
    var l: int, h: int := lo, hi;
    l + 256 * h
  }

  /** The low byte comes first; sixteen bits come back, and nothing above them. */
  lemma StampRoundTrip(n: nat)
    ensures |Le16(n)| == 2 && (n < 256 ==> Le16(n) == [n, 0])
    ensures U16(Le16(n)[0], Le16(n)[1]) == n % 0x1_0000
  {}

  // ---- the stream ------------------------------------------------------------------------------

  /** What the sending task puts on the wire. */
  datatype Unit = Data(body: seq<byte>) | KeepAlive

  /** A batch the length stamp can describe. */
  predicate Stampable(body: seq<byte>)
  {
    1 <= |body| < 0x1_0000
  }

  predicate Sendable(us: seq<Unit>)
  {
    forall i :: 0 <= i < |us| && us[i].Data? ==> Stampable(us[i].body)
  }

  function UnitBytes(u: Unit): seq<byte>
  {
    match u
    case Data(body) => Le16(|body|) + body
    case KeepAlive => [0, 0]
  }

  function Stream(us: seq<Unit>): seq<byte>
  {
    if us == [] then [] else UnitBytes(us[0]) + Stream(us[1..])
  }

  function Bodies(us: seq<Unit>): seq<seq<byte>>
  {
    if us == [] then [] else (if us[0].Data? then [us[0].body] else []) + Bodies(us[1..])
  }

  /** What the receiving task makes of a stream that ends: the batches that arrived whole. */
  function Deframe(s: seq<byte>): seq<seq<byte>>
    decreases |s|
  {
    if |s| < 2 then []
    else
      var len := U16(s[0], s[1]);
      if len == 0 then Deframe(s[2..])
      else if |s| < 2 + len then []
      else [s[2..2 + len]] + Deframe(s[2 + len..])
  }

  lemma DeframeShort(s: seq<byte>)
    ensures |s| < 2 ==> Deframe(s) == []
  {}

  lemma DeframeStep(s: seq<byte>)
    requires |s| >= 2
    ensures var len := U16(s[0], s[1]);
            Deframe(s) == if len == 0 then Deframe(s[2..]) else if |s| < 2 + len then []
                else [s[2..2 + len]] + Deframe(s[2 + len..])
  {}

  lemma DeframeUnit(u: Unit, rest: seq<byte>)
    requires u.Data? ==> Stampable(u.body)
    ensures Deframe(UnitBytes(u) + rest) == (if u.Data? then [u.body] else []) + Deframe(rest)
  {
    var s := UnitBytes(u) + rest;
    match u
    case Data(body) =>
      assert U16(s[0], s[1]) == |body|;
      assert s[2..2 + |body|] == body && s[2 + |body|..] == rest;
    case KeepAlive =>
      assert s[2..] == rest;
  }

  /** The receiver recovers exactly the batches sent, whatever keep-alives stand between them. */
  lemma {:induction false} FramingRoundTrip(us: seq<Unit>)
    requires Sendable(us)
    ensures Deframe(Stream(us)) == Bodies(us)
  {
    if us != [] {
      hide UnitBytes;
      FramingRoundTrip(us[1..]);
      DeframeUnit(us[0], Stream(us[1..]));
    }
  }

  /** A connection that breaks anywhere delivers the batches before the break, and nothing else. */
  lemma {:induction false} CutStream(s: seq<byte>, lost: seq<byte>)
    ensures Deframe(s) <= Deframe(s + lost)
    decreases |s|
  {
    hide Deframe, U16;
    if |s| < 2 {
      DeframeShort(s);
    } else {
      var len := U16(s[0], s[1]);
      DeframeStep(s);
      assert (s + lost)[0] == s[0] && (s + lost)[1] == s[1];
      DeframeStep(s + lost);
      if len == 0 {
        CutRest(s, lost, 2);
        CutStream(s[2..], lost);
      } else if |s| >= 2 + len {
        CutRest(s, lost, 2 + len);
        CutStream(s[2 + len..], lost);
      }
    }
  }

  lemma CutRest(s: seq<byte>, lost: seq<byte>, n: nat)
    requires 2 <= n <= |s|
    ensures (s + lost)[n..] == s[n..] + lost && (s + lost)[2..n] == s[2..n]
  {}

  // ---- sending ---------------------------------------------------------------------------------

  /** What the writer answers to one vectored write: it takes up to n bytes of what it is offered, or fails. */
  datatype Io = Takes(n: nat) | Fails

  /** `IoSlice::advance_slices`: drops the slices used up, empty ones too, and trims the next. */
  method AdvanceSlices(slices: Bytes, n: nat) returns (rest: Bytes)
    requires n <= |Flat(slices)|
    ensures Flat(rest) == Flat(slices)[n..]
    ensures Flat(rest) == [] <==> rest == []
  {
    rest := slices;
    var left: nat := n;
    while rest != [] && left >= |rest[0]|
      invariant left <= |Flat(rest)| && Flat(rest)[left..] == Flat(slices)[n..]
      decreases |rest|
    {
      assert Flat(rest)[left..] == Flat(rest[1..])[left - |rest[0]|..];
      left := left - |rest[0]|;
      rest := rest[1..];
    }
    if rest != [] {
      assert Flat(rest)[left..] == rest[0][left..] + Flat(rest[1..]);
      ConsFlat(rest[0][left..], rest[1..]);
      rest := [rest[0][left..]] + rest[1..];
    }
  }

  predicate Progresses(io: seq<Io>)
  {
    forall i :: 0 <= i < |io| ==> io[i].Takes? && io[i].n > 0
  }

  /** A writer that takes something every time, often enough for all the bytes. */
  predicate Lasts(io: seq<Io>, bytes: seq<byte>)
  {
    Progresses(io) && |io| >= |bytes|
  }

  /** Writes all the slices, however little the writer takes at a time: what it took is exactly a prefix, and
      all of it on success. It fails on an error, on a write that takes nothing, and on a list of nothing but
      empty slices. */
  method WriteAllVectored(slices: Bytes, io: seq<Io>) returns (ok: bool, written: nat, sink: seq<byte>)
    ensures sink <= Flat(slices) && written == |sink|
    ensures ok <==> sink == Flat(slices) && (slices == [] || sink != [])
    ensures Lasts(io, Flat(slices)) && (slices == [] || Flat(slices) != []) ==> ok
  {
    var rest, k := slices, 0;
    written, sink := 0, [];
    assert Flat([]) == [];
    hide Flat;
    while rest != []
      invariant Flat(slices) == sink + Flat(rest) && written == |sink| && k <= |io|
      invariant Flat([]) == []
      invariant if sink == [] then rest == slices else Flat(rest) == [] <==> rest == []
      invariant Progresses(io) ==> written >= k
      decreases |Flat(rest)|, |rest|
    {
      if k == |io| || io[k].Fails? {
        return false, written, sink;
      }
      var n := if io[k].n <= |Flat(rest)| then io[k].n else |Flat(rest)|;
      k := k + 1;
      if n == 0 {
        return false, written, sink;
      }
      TakeMore(sink, Flat(rest), n);
      sink := sink + Flat(rest)[..n];
      rest := AdvanceSlices(rest, n);
      written := written + n;
    }
    ok := true;
  }

  lemma TakeMore(sink: seq<byte>, ahead: seq<byte>, n: nat)
    requires n <= |ahead|
    ensures sink + ahead == (sink + ahead[..n]) + ahead[n..] && |sink + ahead[..n]| == |sink| + n
  {}

  /** `WriteBatch::write_len`: the length, as a u16, over the two reserved bytes. */
  function Stamped(w: TxStage.WriteBatch): TxStage.WriteBatch
    requires |w.frame| >= 2
  {
    w.(frame := Le16(|w.frame| - 2 + |Flat(w.fragment)|) + w.frame[2..])
  }

  /** A stamped batch is the length of its wire form and the wire form: the stamp never truncates. */
  lemma StampedBytes(bs: BatchSize, w: TxStage.WriteBatch, b: Batch)
    requires TxStage.Carries(w, b) && |Wire(b)| <= bs
    ensures Stampable(Wire(b))
    ensures Stamped(w).frame + Flat(w.fragment) == UnitBytes(Data(Wire(b)))
  {
    WireSize(b);
    hide Wire, Flat, Le16;
    Restamp(w.frame, Flat(w.fragment), Wire(b));
  }

  lemma WireSize(b: Batch)
    ensures |Wire(b)| >= 3
  {
    hide Codec.EncodeHeader;
    Codec.HeaderSize(HeaderOf(b));
  }

  /** Overwriting the two reserved bytes. */
  lemma Restamp(frame: seq<byte>, more: seq<byte>, wire: seq<byte>)
    requires |frame| >= 2 && frame + more == TxStage.LEN_PREFIX + wire
    ensures |frame| - 2 + |more| == |wire|
    ensures Le16(|wire|) + frame[2..] + more == Le16(|wire|) + wire
  {
    hide Le16;
    assert (frame + more)[2..] == frame[2..] + more;
    assert (TxStage.LEN_PREFIX + wire)[2..] == wire;
  }

  ghost predicate AllCarry(bs: BatchSize, ws: seq<TxStage.WriteBatch>, batches: seq<Batch>)
  {
    |ws| == |batches| && forall i :: 0 <= i < |ws| ==> TxStage.Carries(ws[i], batches[i]) && |Wire(batches[i])| <= bs
  }

  function Wires(batches: seq<Batch>): seq<Unit>
  {
    seq(|batches|, i requires 0 <= i < |batches| => Data(Wire(batches[i])))
  }

  lemma {:induction false} StreamPush(us: seq<Unit>, u: Unit)
    ensures Stream(us + [u]) == Stream(us) + UnitBytes(u)
  {
    hide UnitBytes;
    if us == [] {
      assert us + [u] == [u];
      assert Stream([u]) == UnitBytes(u) + Stream([]);
    } else {
      assert (us + [u])[1..] == us[1..] + [u];
      StreamPush(us[1..], u);
    }
  }

  /** One more batch's slices. */
  lemma GatherStep(bs: BatchSize, slices: Bytes, w: TxStage.WriteBatch, batches: seq<Batch>, i: nat)
    requires i < |batches| && TxStage.Carries(w, batches[i]) && |Wire(batches[i])| <= bs
    requires Flat(slices) == Stream(Wires(batches[..i]))
    ensures Flat(slices + [Stamped(w).frame] + w.fragment) == Stream(Wires(batches[..i + 1]))
    ensures |w.frame| >= 2 && Stamped(w).frame != []
  {
    hide Stream, UnitBytes, Flat, Wire;
    StampedBytes(bs, w, batches[i]);
    assert Wires(batches[..i + 1]) == Wires(batches[..i]) + [Data(Wire(batches[i]))];
    StreamPush(Wires(batches[..i]), Data(Wire(batches[i])));
    FlatPush(slices, Stamped(w).frame);
    FlatAppend(slices + [Stamped(w).frame], w.fragment);
  }

  lemma FrontNotEmpty(c: Chunk, rest: Bytes, more: Bytes)
    requires c != []
    ensures Flat(rest + [c] + more) != []
  {
    FlatPush(rest, c);
    FlatAppend(rest + [c], more);
  }

  lemma NoWires(batches: seq<Batch>)
    ensures Flat([]) == [] == Stream(Wires(batches[..0]))
  {
    assert Wires(batches[..0]) == [];
  }

  /** The slices of some batches: each frame, then its fragment chunks if any. */
  method Gather(bs: BatchSize, ws: seq<TxStage.WriteBatch>, ghost batches: seq<Batch>) returns (slices: Bytes)
    requires AllCarry(bs, ws, batches)
    ensures Flat(slices) == Stream(Wires(batches))
    ensures ws != [] ==> slices != [] && Flat(slices) != []
  {
    slices := [];
    var i := 0;
    NoWires(batches);
    hide Stream, Flat, Wire, Wires, TxStage.Carries;
    while i < |ws|
      invariant 0 <= i <= |ws| && Flat(slices) == Stream(Wires(batches[..i]))
      invariant i > 0 ==> slices != [] && Flat(slices) != []
    {
      var w := ws[i];
      GatherStep(bs, slices, w, batches, i);
      FrontNotEmpty(Stamped(w).frame, slices, w.fragment);
      slices := slices + [Stamped(w).frame];
      if w.fragment != [] {
        slices := slices + w.fragment;
      } else {
        assert slices + w.fragment == slices;
      }
      i := i + 1;
    }
    assert batches[..|ws|] == batches;
  }

  /** One coalesced write of committed batches: on success the writer has exactly their framed stream, otherwise a
      proper prefix of it. */
  method WriteBatches(bs: BatchSize, ws: seq<TxStage.WriteBatch>, ghost batches: seq<Batch>, io: seq<Io>)
    returns (ok: bool, written: nat, sink: seq<byte>)
    requires AllCarry(bs, ws, batches) && ws != []
    ensures sink <= Stream(Wires(batches)) && written == |sink| && (ok <==> sink == Stream(Wires(batches)))
    ensures Lasts(io, Stream(Wires(batches))) ==> ok
  {
    var slices := Gather(bs, ws, batches);
    ok, written, sink := WriteAllVectored(slices, io);
  }

  // ---- the sending task ------------------------------------------------------------------------

  /** What the loop of `write_task` meets: batches that are ready, or the keep-alive timer; and how their write goes. */
  datatype Event = Ready(ws: seq<TxStage.WriteBatch>, io: seq<Io>) | Idle(io: seq<Io>)

  ghost predicate Means(bs: BatchSize, e: Event, batches: seq<Batch>)
  {
    e.Ready? ==> e.ws != [] && AllCarry(bs, e.ws, batches)
  }

  function UnitsOf(e: Event, batches: seq<Batch>): seq<Unit>
  {
    if e.Ready? then Wires(batches) else [KeepAlive]
  }

  function Script(events: seq<Event>, meant: seq<seq<Batch>>): seq<Unit>
    requires |events| == |meant|
  {
    if events == [] then []
    else
      Script(events[..|events| - 1], meant[..|meant| - 1]) + UnitsOf(events[|events| - 1], meant[|meant| - 1])
  }

  lemma {:induction false} StreamAppend(us: seq<Unit>, vs: seq<Unit>)
    ensures Stream(us + vs) == Stream(us) + Stream(vs)
  {
    hide UnitBytes;
    if us == [] {
      assert us + vs == vs;
    } else {
      assert (us + vs)[1..] == us[1..] + vs;
      StreamAppend(us[1..], vs);
    }
  }

  method WriteEvent(bs: BatchSize, e: Event, ghost batches: seq<Batch>) returns (ok: bool, sink: seq<byte>)
    requires Means(bs, e, batches)
    ensures sink <= Stream(UnitsOf(e, batches)) && (ok <==> sink == Stream(UnitsOf(e, batches)))
    ensures Lasts(e.io, Stream(UnitsOf(e, batches))) ==> ok
  {
    match e
    case Ready(ws, io) =>
      var n;
      ok, n, sink := WriteBatches(bs, ws, batches, io);
    case Idle(io) =>
      KeepAliveBytes();
      var n;
      ok, n, sink := WriteAllVectored([[0, 0]], io);
  }

  lemma KeepAliveBytes()
    ensures Flat([[0, 0]]) == Stream([KeepAlive]) == [0, 0]
  {
    assert Stream([KeepAlive]) == UnitBytes(KeepAlive) + Stream([]);
  }

  lemma ScriptPush(events: seq<Event>, meant: seq<seq<Batch>>, k: nat)
    requires k < |events| == |meant|
    ensures Script(events[..k + 1], meant[..k + 1]) == Script(events[..k], meant[..k]) + UnitsOf(events[k], meant[k])
  {
    assert events[..k + 1][..k] == events[..k] && meant[..k + 1][..k] == meant[..k];
  }

  /** Why a task stops before event k, having written only `part` of it: the writer failed it. */
  ghost predicate StopsAt(events: seq<Event>, meant: seq<seq<Batch>>, k: nat, part: seq<byte>)
    requires |meant| == |events| && k <= |events|
  {
    if k == |events| then part == []
    else
      var bytes := Stream(UnitsOf(events[k], meant[k]));
      part <= bytes && part != bytes && !Lasts(events[k].io, bytes)
  }

  /** The loop up to the first write that fails: `done` events were written whole, `part` is what was written of the
      next, whose writer did not last. */
  method WriteLoop(bs: BatchSize, events: seq<Event>, ghost meant: seq<seq<Batch>>)
    returns (done: nat, sink: seq<byte>, ghost part: seq<byte>)
    requires |meant| == |events| && forall i :: 0 <= i < |events| ==> Means(bs, events[i], meant[i])
    ensures done <= |events| && sink == Stream(Script(events[..done], meant[..done])) + part
    ensures StopsAt(events, meant, done, part)
  {
    done, sink, part := 0, [], [];
    assert Stream(Script(events[..0], meant[..0])) == [];
    hide Stream, Script, UnitsOf, Means;
    while done < |events|
      invariant done <= |events| && sink == Stream(Script(events[..done], meant[..done]))
    {
      var ok, written := WriteEvent(bs, events[done], meant[done]);
      if !ok {
        return done, sink + written, written;
      }
      ScriptPush(events, meant, done);
      StreamAppend(Script(events[..done], meant[..done]), UnitsOf(events[done], meant[done]));
      sink := sink + written;
      done := done + 1;
    }
    assert sink + [] == sink;
  }

  /** `write_task`: the loop, and then, whether or not a write failed, the batches drained one by one until a write
      fails. */
  method WriteTask(bs: BatchSize, events: seq<Event>, ghost meant: seq<seq<Batch>>,
                   drained: seq<Event>, ghost last: seq<seq<Batch>>)
    returns (all: bool, sink: seq<byte>, ghost done: nat, ghost part: seq<byte>, ghost left: nat, ghost tail: seq<byte>)
    requires |meant| == |events| && forall i :: 0 <= i < |events| ==> Means(bs, events[i], meant[i])
    requires |last| == |drained|
    requires forall i :: 0 <= i < |drained| ==> drained[i].Ready? && Means(bs, drained[i], last[i])
    ensures done <= |events| && left <= |drained|
    ensures sink == Stream(Script(events[..done], meant[..done])) + part
                    + (Stream(Script(drained[..left], last[..left])) + tail)
    ensures all <==> done == |events| && left == |drained|
    ensures StopsAt(events, meant, done, part) && StopsAt(drained, last, left, tail)
    ensures all ==> sink == Stream(Script(events, meant) + Script(drained, last))
  {
    hide Stream, Script, UnitsOf, Means;
    var d, bytes, l, more;
    d, bytes, part := WriteLoop(bs, events, meant);
    l, more, tail := WriteLoop(bs, drained, last);
    all := d == |events| && l == |drained|;
    sink := bytes + more;
    done, left := d, l;
    if all {
      assert events[..done] == events && meant[..done] == meant && drained[..left] == drained && last[..left] == last;
      StreamAppend(Script(events, meant), Script(drained, last));
      assert bytes + [] == bytes && more + [] == more;
    }
  }

  /** When every write succeeds the receiver recovers exactly the batches, in order. */
  lemma {:induction false} ScriptSendable(bs: BatchSize, events: seq<Event>, meant: seq<seq<Batch>>)
    requires |meant| == |events| && forall i :: 0 <= i < |events| ==> Means(bs, events[i], meant[i])
    ensures Sendable(Script(events, meant))
  {
    hide Wire;
    if events != [] {
      var k := |events| - 1;
      ScriptSendable(bs, events[..k], meant[..k]);
      if events[k].Ready? {
        forall i | 0 <= i < |meant[k]| ensures Stampable(Wire(meant[k][i])) {
          StampedBytes(bs, events[k].ws[i], meant[k][i]);
        }
      }
    }
  }

  lemma SendableAppend(us: seq<Unit>, vs: seq<Unit>)
    requires Sendable(us) && Sendable(vs)
    ensures Sendable(us + vs)
  {}

  lemma WrittenIsReceived(bs: BatchSize, events: seq<Event>, meant: seq<seq<Batch>>, drained: seq<Event>,
      last: seq<seq<Batch>>)
    requires |meant| == |events| && forall i :: 0 <= i < |events| ==> Means(bs, events[i], meant[i])
    requires |last| == |drained| && forall i :: 0 <= i < |drained| ==> Means(bs, drained[i], last[i])
    ensures var us := Script(events, meant) + Script(drained, last); Deframe(Stream(us)) == Bodies(us)
  {
    hide Means, Script, Sendable;
    ScriptSendable(bs, events, meant);
    ScriptSendable(bs, drained, last);
    SendableAppend(Script(events, meant), Script(drained, last));
    FramingRoundTrip(Script(events, meant) + Script(drained, last));
  }

  // ---- a write that fails inside a batch -------------------------------------------------------

  /** After that the drained batches do not start where the receiver expects one: it fills the batch that was cut with
      their first bytes. Exactly what it then takes for a batch, when the cut lies after the length stamp. */
  lemma CutBatchIsFilled(body: seq<byte>, i: nat, rest: seq<byte>)
    requires Stampable(body) && i < |body|
    ensures var missing := |body| - i;
            Deframe(Le16(|body|) + body[..i] + rest) ==
            if |rest| < missing then [] else [body[..i] + rest[..missing]] + Deframe(rest[missing..])
  {
    hide Deframe, UnitBytes, U16;
    var missing := |body| - i;
    if |rest| >= missing {
      Refill(body, i, rest);
      var filled := body[..i] + rest[..missing];
      assert Stampable(filled);
      DeframeUnit(Data(filled), rest[missing..]);
    } else {
      Unfilled(body, Le16(|body|) + body[..i] + rest);
    }
  }

  lemma Unfilled(body: seq<byte>, s: seq<byte>)
    requires Stampable(body) && Le16(|body|) <= s && |s| < 2 + |body|
    ensures Deframe(s) == []
  {
    hide Deframe;
    Le16Value(|body|, s);
    DeframeStep(s);
  }

  lemma Le16Value(n: nat, s: seq<byte>)
    requires n < 0x1_0000 && Le16(n) <= s
    ensures |s| >= 2 && U16(s[0], s[1]) == n
  {}

  lemma Refill(body: seq<byte>, i: nat, rest: seq<byte>)
    requires i < |body| && |rest| >= |body| - i
    ensures var filled := body[..i] + rest[..|body| - i];
            Le16(|body|) + body[..i] + rest == UnitBytes(Data(filled)) + rest[|body| - i..]
  {
    assert rest == rest[..|body| - i] + rest[|body| - i..];
    hide Le16;
  }

  /** So the batch that was cut arrives as it was only if what is drained happens to begin with its missing bytes. */
  lemma InStepAfterCut(body: seq<byte>, i: nat, rest: seq<byte>)
    requires Stampable(body) && i < |body|
    ensures [body] <= Deframe(Le16(|body|) + body[..i] + rest) <==> body[i..] <= rest
  {
    CutBatchIsFilled(body, i, rest);
    hide Deframe, Le16;
    var missing := |body| - i;
    if |rest| >= missing {
      var filled := body[..i] + rest[..missing];
      HeadIs(body, filled, Deframe(rest[missing..]));
      Filled(body, i, rest[..missing]);
      StartsWith(body[i..], rest);
    }
  }

  lemma HeadIs(x: seq<byte>, y: seq<byte>, more: seq<seq<byte>>)
    ensures [x] <= [y] + more <==> x == y
  {
    assert ([y] + more)[0] == y;
  }

  lemma Filled(body: seq<byte>, i: nat, r: seq<byte>)
    requires i <= |body| && |r| == |body| - i
    ensures body == body[..i] + r <==> r == body[i..]
  {
    assert body == body[..i] + body[i..];
    assert (body[..i] + r)[i..] == r;
  }

  lemma StartsWith(a: seq<byte>, s: seq<byte>)
    requires |a| <= |s|
    ensures a <= s <==> s[..|a|] == a
  {}

  // ---- receiving -------------------------------------------------------------------------------

  /** The socket: `segments` says how much each read finds at most (at least one byte until the end). */
  class Source {
    const data: seq<byte>
    const segments: seq<nat>
    var pos: nat
    var count: nat

    ghost predicate Valid()
      reads this
    {
      pos <= |data|
    }

    constructor (data: seq<byte>, segments: seq<nat>)
      ensures Valid() && this.data == data && pos == 0
    {
      this.data, this.segments := data, segments;
      pos, count := 0, 0;
    }

    /** One read: something, unless nothing is left or nothing is asked. */
    method Read(buf: array<byte>, lo: nat, hi: nat) returns (n: nat)
      requires Valid() && lo <= hi <= buf.Length
      modifies this, buf
      ensures Valid() && n <= hi - lo && pos == old(pos) + n
      ensures n == 0 <==> lo == hi || old(pos) == |data|
      ensures forall k :: 0 <= k < buf.Length && !(lo <= k < lo + n) ==> buf[k] == old(buf[k])
      ensures forall k :: lo <= k < lo + n ==> buf[k] == data[old(pos) + k - lo]
    {
      var most := if count < |segments| && segments[count] > 0 then segments[count] else 1;
      var room := if hi - lo < |data| - pos then hi - lo else |data| - pos;
      n := if most < room then most else room;
      forall k | 0 <= k < n {
        buf[lo + k] := data[pos + k];
      }
      pos, count := pos + n, count + 1;
    }

    /** `read_exact`: fills the range or fails at the end of the stream. */
    method ReadExact(buf: array<byte>, len: nat) returns (ok: bool)
      requires Valid() && len <= buf.Length
      modifies this, buf
      ensures Valid()
      ensures ok <==> len <= |data| - old(pos)
      ensures ok ==> pos == old(pos) + len && buf[..len] == data[old(pos)..pos]
    {
      var got := 0;
      while got < len
        invariant Valid() && got <= len && pos == old(pos) + got
        invariant forall k :: 0 <= k < got ==> buf[k] == data[old(pos) + k]
      {
        var n := Read(buf, got, len);
        if n == 0 {
          return false;
        }
        got := got + n;
      }
      ok := true;
    }
  }

  /** The next power of two, the size `read_task` allocates. */
  method NextPowerOfTwo(n: nat) returns (p: nat)
    ensures p >= n
  {
    p := 1;
    while p < n
      invariant p > 0
      decreases n - p
    {
      p := 2 * p;
    }
  }

  lemma Within(data: seq<byte>, pos: nat, a: nat, b: nat)
    requires a <= b && pos + b <= |data|
    ensures data[pos..][a..b] == data[pos + a..pos + b]
  {}

  lemma DropTwice(data: seq<byte>, pos: nat, n: nat)
    requires pos + n <= |data|
    ensures data[pos..][n..] == data[pos + n..]
  {}

  /** One turn of the read loop. */
  datatype Turn = Eof | Skip | Got(body: seq<byte>)

  method ReadTurn(source: Source) returns (t: Turn)
    requires source.Valid()
    modifies source
    ensures source.Valid()
    ensures var s, s' := source.data[old(source.pos)..], source.data[source.pos..];
            match t
            case Eof => Deframe(s) == []
            case Skip => Deframe(s) == Deframe(s') && |s'| < |s|
            case Got(body) => Deframe(s) == [body] + Deframe(s') && |s'| < |s|
  {
    hide Deframe, U16;
    ghost var start, s := source.pos, source.data[source.pos..];
    DeframeShort(s);
    var header := new byte[2];
    var ok := source.ReadExact(header, 2);
    if !ok {
      return Eof;
    }
    Within(source.data, start, 0, 2);
    var len := U16(header[0], header[1]);
    assert len == U16(s[0], s[1]) by { assert header[..2][0] == header[0] && header[..2][1] == header[1]; }
    DeframeStep(s);
    DropTwice(source.data, start, 2);
    if len == 0 {
      return Skip;
    }
    var size := NextPowerOfTwo(len);
    var buf := new byte[size];
    ok := source.ReadExact(buf, len);
    if !ok {
      return Eof;
    }
    DropTwice(source.data, start, 2 + len);
    Within(source.data, start, 2, 2 + len);
    t := Got(buf[..len]);
  }

  /** The read loop up to the end of the stream, however the bytes come in: the batches it hands to the pipeline. */
  method ReadTask(source: Source) returns (batches: seq<seq<byte>>)
    requires source.Valid()
    modifies source
    ensures source.Valid() && batches == Deframe(source.data[old(source.pos)..])
  {
    hide Deframe;
    batches := [];
    ghost var whole := Deframe(source.data[source.pos..]);
    while true
      invariant source.Valid() && whole == batches + Deframe(source.data[source.pos..])
      decreases |source.data| - source.pos
    {
      var t := ReadTurn(source);
      if t.Eof? {
        return;
      }
      if t.Got? {
        batches := batches + [t.body];
      }
    }
  }
}
