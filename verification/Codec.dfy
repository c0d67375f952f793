/** src/protocol and src/codec: batch headers, length-prefixed messages and their byte encodings. */
module Codec {
  import opened Base
  import opened BytesBuf
  import opened BoxBuffer
  import Vle

  // ---- protocol types --------------------------------------------------------------------------

  datatype CongestionControl = Block | Drop
  datatype QoS = QoS(priority: Priority, cc: CongestionControl, express: bool)

  const SEQ_MOD: nat := 0x1000_0000
  type SeqNum = n: nat | n < SEQ_MOD

  function NextSeq(n: SeqNum): SeqNum
  {
    (n + 1) % SEQ_MOD
  }

  datatype Kind = First | More | Last
  datatype Body = Frame | Fragment(kind: Kind, fragId: SeqNum)
  datatype Header = Header(qos: QoS, seqNum: SeqNum, body: Body)

  type Msg = m: seq<byte> | |m| < TWO64

  // ---- encodings -------------------------------------------------------------------------------

  /** Bits 0-1 priority, bit 2 droppable, bit 3 express. */
  function QosByte(q: QoS): byte
  {
    q.priority + (if q.cc.Drop? then 4 else 0) + (if q.express then 8 else 0)
  }

  function QosOfByte(b: byte): QoS
  {
    QoS(b % 4, if b / 4 % 2 == 1 then Drop else Block, b / 8 % 2 == 1)
  }

  /** Bits 0-4 the identifier (frame 0, fragment 1), bits 5-6 the fragment kind. */
  function BodyByte(b: Body): byte
  {
    match b
    case Frame => 0
    case Fragment(k, _) => 1 + 32 * (match k case First => 0 case More => 1 case Last => 2)
  }

  function EncodeHeader(h: Header): seq<byte>
  {
    [QosByte(h.qos)] + Vle.Encode(h.seqNum) + [BodyByte(h.body)]
    + if h.body.Fragment? then Vle.Encode(h.body.fragId) else []
  }

  function EncodeMsg(m: Msg): seq<byte>
  {
    Vle.Encode(|m|) + m
  }

  /** `MessageBody::read`; kind bits 0b11 are not a `FragmentKind`. */
  function DecodeBody(s: seq<byte>): (r: Option<(Body, nat)>)
    ensures r.Some? ==> 1 <= r.value.1 <= |s|
  {
    if s == [] then None
    else if s[0] % 32 == 0 then Some((Frame, 1))
    else if s[0] % 32 != 1 || s[0] / 32 % 4 == 3 then None
    else
      match Vle.Decode(s[1..])
      case None => None
      case Some((id, n)) =>
        var k := s[0] / 32 % 4;
        Some((Fragment(if k == 0 then First else if k == 1 then More else Last, id % SEQ_MOD), 1 + n))
  }

  function DecodeHeader(s: seq<byte>): (r: Option<(Header, nat)>)
    ensures r.Some? ==> 1 <= r.value.1 <= |s|
  {
    if s == [] then None
    else
      match Vle.Decode(s[1..])
      case None => None
      case Some((sn, n)) =>
        match DecodeBody(s[1 + n..])
        case None => None
        case Some((body, k)) => Some((Header(QosOfByte(s[0]), sn % SEQ_MOD, body), 1 + n + k))
  }

  function DecodeMsg(s: seq<byte>): (r: Option<(Msg, nat)>)
    ensures r.Some? ==> 1 <= r.value.1 <= |s|
  {
    match Vle.Decode(s)
    case None => None
    case Some((len, n)) => if n + len <= |s| then Some((s[n..n + len], n + len)) else None
  }

  // ---- the layout on the wire ------------------------------------------------------------------

  /** Where everything stands: priority in bits 0 and 1 of the first byte, then one bit droppable and one express; then
      the sequence number; then a byte with the identifier in its lower five bits and, in a fragment, the kind in the
      next two; then a fragment's number. */
  lemma HeaderLayout(h: Header)
    ensures var (s, k) := (EncodeHeader(h), 1 + |Vle.Encode(h.seqNum)|);
            && |s| > k && s[1..k] == Vle.Encode(h.seqNum)
            && s[0] < 16 && s[0] % 4 == h.qos.priority
            && (s[0] / 4 % 2 == 1 <==> h.qos.cc.Drop?) && (s[0] / 8 == 1 <==> h.qos.express)
            && match h.body
               case Frame => s[k] == 0 && |s| == k + 1
               case Fragment(kind, id) =>
                 && s[k] % 32 == 1 && s[k] / 32 == (match kind case First => 0 case More => 1 case Last => 2)
                 && s[k + 1..] == Vle.Encode(id)
  {
    hide Vle.Encode;
  }

  /** A header is refused only where the bytes end too early, for an identifier that is neither a frame's nor a
      fragment's, and for a fourth kind; bits that mean nothing are ignored. */
  lemma DecodeLayout(s: seq<byte>)
    ensures var r := DecodeHeader(s);
            if s == [] || Vle.Decode(s[1..]).None? then r.None?
            else
              var (sn, n) := Vle.Decode(s[1..]).value;
              if |s| == 1 + n then r.None?
              else
                var b := s[1 + n];
                var id := Vle.Decode(s[2 + n..]);
                && (r.Some? <==> b % 32 == 0 || (b % 32 == 1 && b / 32 % 4 < 3 && id.Some?))
                && (r.Some? ==>
                      var (h, k) := r.value;
                      && h.seqNum == sn % SEQ_MOD && h.qos.priority == s[0] % 4
                      && (h.qos.cc.Drop? <==> s[0] / 4 % 2 == 1) && (h.qos.express <==> s[0] / 8 % 2 == 1)
                      && (h.body.Frame? <==> b % 32 == 0) && (h.body.Frame? ==> k == 2 + n)
                      && (h.body.Fragment? ==> k == 2 + n + id.value.1 && h.body.fragId == id.value.0 % SEQ_MOD)
                      && (h.body.Fragment? ==> (h.body.kind.First? <==> b / 32 % 4 == 0)
                                               && (h.body.kind.Last? <==> b / 32 % 4 == 2)))
  {
    hide Vle.Decode;
    if s != [] && Vle.Decode(s[1..]).Some? {
      var n := Vle.Decode(s[1..]).value.1;
      if |s| > 1 + n {
        assert s[1 + n..][0] == s[1 + n] && s[1 + n..][1..] == s[2 + n..];
      }
    }
  }

  // ---- round trips -----------------------------------------------------------------------------

  lemma QosRoundTrip(q: QoS)
    ensures QosOfByte(QosByte(q)) == q
  {}

  lemma BodyRoundTrip(b: Body, rest: seq<byte>)
    ensures DecodeBody([BodyByte(b)] + (if b.Fragment? then Vle.Encode(b.fragId) else []) + rest)
         == Some((b, 1 + if b.Fragment? then |Vle.Encode(b.fragId)| else 0))
  {
    hide Vle.Decode, Vle.Encode;
    if b.Fragment? {
      var s := [BodyByte(b)] + Vle.Encode(b.fragId) + rest;
      assert s[1..] == Vle.Encode(b.fragId) + rest;
      Vle.RoundTrip(b.fragId, rest);
    }
  }

  /** Every header decodes to itself, whatever follows it. */
  lemma HeaderRoundTrip(h: Header, rest: seq<byte>)
    ensures DecodeHeader(EncodeHeader(h) + rest) == Some((h, |EncodeHeader(h)|))
  {
    hide Vle.Decode, Vle.Encode;
    var sn, body := Vle.Encode(h.seqNum), [BodyByte(h.body)] + if h.body.Fragment? then Vle.Encode(h.body.fragId)
        else [];
    var s := EncodeHeader(h) + rest;
    assert s == [QosByte(h.qos)] + (sn + (body + rest));
    assert s[1..] == sn + (body + rest);
    Vle.RoundTrip(h.seqNum, body + rest);
    assert s[1 + |sn|..] == body + rest;
    BodyRoundTrip(h.body, rest);
    QosRoundTrip(h.qos);
    assert |EncodeHeader(h)| == 1 + |sn| + |body|;
    assert DecodeHeader(s) == Some((Header(QosOfByte(s[0]), h.seqNum, h.body), 1 + |sn| + |body|));
  }

  lemma MsgRoundTrip(m: Msg, rest: seq<byte>)
    ensures DecodeMsg(EncodeMsg(m) + rest) == Some((m, |EncodeMsg(m)|))
  {
    hide Vle.Decode, Vle.Encode;
    assert EncodeMsg(m) + rest == Vle.Encode(|m|) + (m + rest);
    Vle.RoundTrip(|m|, m + rest);
  }

  /** A header takes at most 6 bytes for a frame and 10 for a fragment (28-bit numbers take four). */
  lemma HeaderSize(h: Header)
    ensures 3 <= |EncodeHeader(h)| <= if h.body.Frame? then 6 else 10
    ensures h.body.Fragment? ==> |EncodeHeader(h)| == 2 + |Vle.Encode(h.seqNum)| + |Vle.Encode(h.body.fragId)|
    ensures h.body.Frame? ==> |EncodeHeader(h)| == 2 + |Vle.Encode(h.seqNum)|
  {
    hide Vle.Decode, Vle.Encode;
    Vle.EncodeLength(h.seqNum);
    if h.body.Fragment? {
      Vle.EncodeLength(h.body.fragId);
    }
  }

  /** The messages a receiver reads from the body of a frame, until decoding fails. */
  function ParseAll(s: seq<byte>): seq<Msg>
    decreases |s|
  {
    match DecodeMsg(s)
    case None => []
    case Some((m, n)) => [m] + ParseAll(s[n..])
  }

  function EncodeMsgs(ms: seq<Msg>): seq<byte>
  {
    if ms == [] then [] else EncodeMsg(ms[0]) + EncodeMsgs(ms[1..])
  }

  lemma {:induction false} EncodeMsgsAppend(ms: seq<Msg>, m: Msg)
    ensures EncodeMsgs(ms + [m]) == EncodeMsgs(ms) + EncodeMsg(m)
  {
    if ms == [] {
      assert EncodeMsgs([m]) == EncodeMsg(m) + EncodeMsgs([]);
    } else {
      assert (ms + [m])[1..] == ms[1..] + [m];
      EncodeMsgsAppend(ms[1..], m);
    }
  }

  /** The body of a frame parses to exactly the messages that were appended to it. */
  lemma {:induction false} ParseEncoded(ms: seq<Msg>)
    ensures ParseAll(EncodeMsgs(ms)) == ms
  {
    if ms != [] {
      var rest := EncodeMsgs(ms[1..]);
      MsgRoundTrip(ms[0], rest);
      assert (EncodeMsg(ms[0]) + rest)[|EncodeMsg(ms[0])|..] == rest;
      ParseEncoded(ms[1..]);
    }
  }

  // ---- writers ---------------------------------------------------------------------------------

  /** Writes the fields in order and stops at the first that does not fit; the fields before it stay written. */
  method WriteHeader(buf: BoxBuf, h: Header) returns (ok: bool)
    requires buf.Valid()
    modifies buf, buf.buffer
    ensures buf.Valid() && old(buf.len) <= buf.len
    ensures ok <==> |EncodeHeader(h)| <= buf.buffer.Length - old(buf.len)
    ensures buf.Contents()[..old(buf.len)] == old(buf.Contents())
    ensures buf.Contents() <= old(buf.Contents()) + EncodeHeader(h)
    ensures old(buf.len) < buf.buffer.Length ==> old(buf.len) < buf.len
    ensures ok ==> buf.Contents() == old(buf.Contents()) + EncodeHeader(h)
  {
    hide Vle.Decode, Vle.Encode;
    ok := buf.WriteExact([QosByte(h.qos)]);
    if !ok { return; }
    ok := buf.WriteVle(h.seqNum);
    if !ok { return; }
    ok := buf.WriteExact([BodyByte(h.body)]);
    if !ok { return; }
    if h.body.Fragment? {
      ok := buf.WriteVle(h.body.fragId);
    }
  }

  /** `WCodec<&Bytes>`: the length, then chunk by chunk. */
  method WriteMsg(buf: BoxBuf, msg: Bytes) returns (ok: bool)
    requires buf.Valid() && |Flat(msg)| < TWO64
    modifies buf, buf.buffer
    ensures buf.Valid() && old(buf.len) <= buf.len
    ensures ok <==> |EncodeMsg(Flat(msg))| <= buf.buffer.Length - old(buf.len)
    ensures buf.Contents()[..old(buf.len)] == old(buf.Contents())
    ensures ok ==> buf.Contents() == old(buf.Contents()) + EncodeMsg(Flat(msg))
  {
    hide Vle.Encode;
    LenIsFlat(msg);
    ok := buf.WriteVle(Len(msg));
    if !ok { return; }
    var i := 0;
    ghost var head := buf.Contents();
    assert Flat(msg[..0]) == [];
    hide Flat;
    while i < |msg|
      invariant buf.Valid() && i <= |msg|
      invariant buf.Contents() == head + Flat(msg[..i])
    {
      FlatSplit(msg, i);
      FlatPrefix(msg, i);
      ok := buf.WriteExact(msg[i]);
      if !ok { return; }
      i := i + 1;
    }
    assert msg[..|msg|] == msg;
  }

  // ---- readers ---------------------------------------------------------------------------------

  /** No chunk is empty and the cursor does not sit at the end of one: then a reader gives up only where the flat
      decoder does. Otherwise it may give up earlier, as `read_u8` does, but what it reads is the same. */
  ghost predicate Tidy(reader: BytesReader)
    reads reader
  {
    NoEmptyChunk(reader.chunks) && NormalPos(reader.chunks, reader.cursor)
  }

  lemma SuffixStep(d: seq<byte>, a: nat, n: nat)
    requires a + n <= |d|
    ensures d[a..][n..] == d[a + n..]
  {}

  /** The read loop has k bytes of `whole` behind it, worth v, and `rest` ahead, to be scaled by w. */
  ghost predicate Pending(whole: seq<byte>, rest: seq<byte>, k: nat, v: nat, w: nat)
    requires k <= 8
  {
    match Vle.DecFrom(rest, k)
    case None => Vle.DecFrom(whole, 0).None?
    case Some((x, n)) => Vle.DecFrom(whole, 0) == Some((v + w * x, k + n))
  }

  lemma PendingStart(whole: seq<byte>)
    ensures Pending(whole, whole, 0, 0, 1)
  {}

  lemma PendingStep(whole: seq<byte>, rest: seq<byte>, k: nat, v: nat, w: nat)
    requires k < 8 && Pending(whole, rest, k, v, w) && rest != [] && rest[0] >= 128
    ensures Pending(whole, rest[1..], k + 1, v + (rest[0] - 128) * w, w * 128)
  {
    Vle.DecUnfold(rest, k);
    hide Vle.DecFrom;
    match Vle.DecFrom(rest[1..], k + 1)
    case None =>
    case Some((x, n)) =>
      Weigh(w, rest[0] - 128, x);
  }

  lemma Weigh(w: int, b: int, x: int)
    ensures w * (b + 128 * x) == b * w + w * 128 * x
  {
    assert w * (b + 128 * x) == w * b + w * (128 * x);
  }

  lemma PendingEnd(whole: seq<byte>, rest: seq<byte>, k: nat, v: nat, w: nat)
    requires k <= 8 && Pending(whole, rest, k, v, w)
    ensures rest == [] ==> Vle.Decode(whole).None?
    ensures rest != [] && (rest[0] < 128 || k == 8) ==>
              v + w * rest[0] < TWO64 && Vle.Decode(whole) == Some((v + w * rest[0], k + 1))
  {}

  /** The read loop: seven bits a byte, at most eight continuation bytes. */
  method ReadVle(reader: BytesReader) returns (r: Option<u64>)
    requires reader.Valid()
    modifies reader
    ensures reader.Valid() && (old(Tidy(reader)) ==> Tidy(reader))
    ensures r.Some? ==> var d := Vle.Decode(reader.Data()[old(reader.Pos())..]);
                        d.Some? && r.value == d.value.0 && reader.Pos() == old(reader.Pos()) + d.value.1
    ensures old(Tidy(reader)) && Vle.Decode(reader.Data()[old(reader.Pos())..]).Some? ==> r.Some?
  {
    hide NoEmptyChunk, NormalPos, ValidPos, AbsPos, Flat, Pending, Vle.Decode;
    ghost var start, whole := reader.Pos(), reader.Data()[reader.Pos()..];
    PendingStart(whole);
    PendingEnd(whole, whole, 0, 0, 1);
    var first := reader.ReadU8();
    if first.None? { return None; }
    var b, v: nat, weight: nat, k: nat := first.value, 0, 1, 0;
    assert whole[0..] == whole;
    while b >= 128 && k != 8
      invariant reader.Valid() && (old(Tidy(reader)) ==> Tidy(reader))
      invariant k <= 8 && k < |whole| && reader.Pos() == start + k + 1 && b == whole[k]
      invariant Pending(whole, whole[k..], k, v, weight)
      decreases 8 - k
    {
      PendingStep(whole, whole[k..], k, v, weight);
      assert whole[k..][1..] == whole[k + 1..];
      v := v + (b - 128) * weight;
      weight := weight * 128;
      k := k + 1;
      var next := reader.ReadU8();
      if next.None? {
        PendingEnd(whole, whole[k..], k, v, weight);
        return None;
      }
      b := next.value;
    }
    PendingEnd(whole, whole[k..], k, v, weight);
    v := v + weight * b;
    r := Some(v);
  }

  method ReadBody(reader: BytesReader) returns (r: Option<Body>)
    requires reader.Valid()
    modifies reader
    ensures reader.Valid() && (old(Tidy(reader)) ==> Tidy(reader))
    ensures r.Some? ==> var d := DecodeBody(reader.Data()[old(reader.Pos())..]);
                        d.Some? && r.value == d.value.0 && reader.Pos() == old(reader.Pos()) + d.value.1
    ensures old(Tidy(reader)) && DecodeBody(reader.Data()[old(reader.Pos())..]).Some? ==> r.Some?
  {
    hide Vle.Decode, Vle.Encode;
    SuffixStep(reader.Data(), reader.Pos(), if reader.Pos() < |reader.Data()| then 1 else 0);
    var header := reader.ReadU8();
    if header.None? { return None; }
    if header.value % 32 == 0 { return Some(Frame); }
    if header.value % 32 != 1 || header.value / 32 % 4 == 3 { return None; }
    var id := ReadVle(reader);
    if id.None? { return None; }
    var k := header.value / 32 % 4;
    r := Some(Fragment(if k == 0 then First else if k == 1 then More else Last, id.value % SEQ_MOD));
  }

  method ReadHeader(reader: BytesReader) returns (r: Option<Header>)
    requires reader.Valid()
    modifies reader
    ensures reader.Valid() && (old(Tidy(reader)) ==> Tidy(reader))
    ensures r.Some? ==> var d := DecodeHeader(reader.Data()[old(reader.Pos())..]);
                        d.Some? && r.value == d.value.0 && reader.Pos() == old(reader.Pos()) + d.value.1
    ensures old(Tidy(reader)) && DecodeHeader(reader.Data()[old(reader.Pos())..]).Some? ==> r.Some?
  {
    hide Vle.Decode, Vle.Encode;
    ghost var start, data := reader.Pos(), reader.Data();
    ghost var s := data[start..];
    var header := reader.ReadU8();
    if header.None? { return None; }
    SuffixStep(data, start, 1);
    var sn := ReadVle(reader);
    if sn.None? { return None; }
    ghost var mid := reader.Pos() - start;
    SuffixStep(data, start, mid);
    var body := ReadBody(reader);
    if body.None? { return None; }
    assert DecodeBody(s[mid..]) == Some((body.value, reader.Pos() - start - mid));
    r := Some(Header(QosOfByte(header.value), sn.value % SEQ_MOD, body.value));
  }

  /** `RCodec<Bytes>`: the contiguous fast path and the chunked fallback deliver the same bytes and end position. */
  method ReadMsg(reader: BytesReader) returns (r: Option<Bytes>)
    requires reader.Valid()
    modifies reader
    ensures reader.Valid() && (old(Tidy(reader)) ==> Tidy(reader))
    ensures r.Some? ==> var d := DecodeMsg(reader.Data()[old(reader.Pos())..]);
                        d.Some? && Flat(r.value) == d.value.0 && reader.Pos() == old(reader.Pos()) + d.value.1
    ensures old(Tidy(reader)) && DecodeMsg(reader.Data()[old(reader.Pos())..]).Some? ==> r.Some?
    ensures old(Tidy(reader)) && r.Some? ==> NoEmptyChunk(r.value)
  {
    hide Vle.Decode, Vle.Encode;
    ghost var data, start := reader.Data(), reader.Pos();
    var len := ReadVle(reader);
    if len.None? { return None; }
    ghost var at := reader.Pos();
    assert at + len.value <= |data| ==> data[at..at + len.value] == data[start..][at - start..at - start + len.value];
    if len.value == 0 { return Some([]); }
    var chunk := reader.ReadChunkContiguous(len.value);
    if chunk.Some? {
      assert Flat([chunk.value]) == chunk.value;
      return Some([chunk.value]);
    }
    var ok, out := reader.ReadChunks(len.value);
    r := if ok then Some(out) else None;
  }
}
