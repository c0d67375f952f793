/** src/buffers/bytes.rs: `Bytes` (a list of chunks, empty ones included), its cursor, its views and its equality.
    A reader refines a flat byte string with one absolute position. */
module BytesBuf {
  import opened Base

  type Chunk = seq<byte>
  type Bytes = seq<Chunk>

  datatype BytesPos = BytesPos(slice: nat, off: nat)

  /** Every cursor a reader can reach. (i, |cs[i]|) denotes the same place as (i + 1, 0). */
  predicate ValidPos(cs: Bytes, p: BytesPos)
  {
    if p.slice < |cs| then p.off <= |cs[p.slice]| else p == BytesPos(|cs|, 0)
  }

  /** The cursor does not sit at the end of a chunk: what `read_u8` needs. */
  predicate NormalPos(cs: Bytes, p: BytesPos)
  {
    p == BytesPos(|cs|, 0) || (p.slice < |cs| && p.off < |cs[p.slice]|)
  }

  predicate NoEmptyChunk(cs: Bytes)
  {
    forall i :: 0 <= i < |cs| ==> cs[i] != []
  }

  function AbsPos(cs: Bytes, p: BytesPos): nat
    requires ValidPos(cs, p)
  {
    |Flat(cs[..p.slice])| + p.off
  }

  /** The bytes from the cursor on, chunk-wise. */
  lemma PosSplit(cs: Bytes, p: BytesPos)
    requires ValidPos(cs, p)
    ensures AbsPos(cs, p) <= |Flat(cs)|
    ensures p.slice == |cs| ==> AbsPos(cs, p) == |Flat(cs)|
    ensures p.slice < |cs| ==> Flat(cs)[AbsPos(cs, p)..] == cs[p.slice][p.off..] + Flat(cs[p.slice + 1..])
    ensures |Flat(cs[p.slice..])| == |Flat(cs)| - AbsPos(cs, p) + p.off
  {
    FlatPrefix(cs, p.slice);
    if p.slice < |cs| {
      FlatSplit(cs, p.slice);
      var pre, c, post := Flat(cs[..p.slice]), cs[p.slice], Flat(cs[p.slice + 1..]);
      assert Flat(cs) == pre + (c + post);
      assert (pre + (c + post))[|pre| + p.off..] == c[p.off..] + post;
    } else {
      assert cs[..|cs|] == cs && cs[|cs|..] == [];
    }
  }

  /** Crossing a chunk boundary does not move the absolute position. */
  lemma PosCross(cs: Bytes, i: nat)
    requires i < |cs|
    ensures ValidPos(cs, BytesPos(i + 1, 0)) && ValidPos(cs, BytesPos(i, |cs[i]|))
    ensures AbsPos(cs, BytesPos(i + 1, 0)) == AbsPos(cs, BytesPos(i, |cs[i]|))
  {
    FlatSplit(cs, i);
  }

  /** The n bytes at the cursor, when they lie in its chunk. */
  lemma PosWindow(cs: Bytes, p: BytesPos, n: nat)
    requires ValidPos(cs, p) && p.slice < |cs| && p.off + n <= |cs[p.slice]|
    ensures AbsPos(cs, p) + n <= |Flat(cs)|
    ensures Flat(cs)[AbsPos(cs, p)..AbsPos(cs, p) + n] == cs[p.slice][p.off..p.off + n]
    ensures AbsPos(cs, BytesPos(p.slice, p.off + n)) == AbsPos(cs, p) + n
  {
    PosSplit(cs, p);
    PosSplit(cs, BytesPos(p.slice, p.off + n));
    var a, f := AbsPos(cs, p), Flat(cs);
    assert f[a..a + n] == f[a..][..n] == cs[p.slice][p.off..][..n];
  }

  class BytesReader {
    const chunks: Bytes
    var cursor: BytesPos

    ghost predicate Valid()
      reads this
    {
      ValidPos(chunks, cursor)
    }

    /** The flat reader this object refines: a byte string ... */
    ghost function Data(): seq<byte>
    {
      Flat(chunks)
    }

    /** ... and one absolute position in it. */
    ghost function Pos(): (n: nat)
      requires Valid()
      reads this
      ensures n <= |Data()|
    {
      PosSplit(chunks, cursor);
      AbsPos(chunks, cursor)
    }

    constructor (bytes: Bytes)
      ensures Valid() && chunks == bytes && cursor == BytesPos(0, 0) && Pos() == 0
    {
      chunks := bytes;
      cursor := BytesPos(0, 0);
      new;
      assert chunks[..0] == [];
    }

    /** Consumes n bytes of the current chunk and leaves it when they are its last. */
    method Advance(n: nat)
      requires Valid() && cursor.slice < |chunks| && cursor.off + n <= |chunks[cursor.slice]|
      modifies this
      ensures Valid() && Pos() == old(Pos()) + n
      ensures old(cursor.off) + n == |chunks[old(cursor.slice)]| ==> cursor == BytesPos(old(cursor.slice) + 1, 0)
      ensures old(cursor.off) + n < |chunks[old(cursor.slice)]| ==>
              cursor == BytesPos(old(cursor.slice), old(cursor.off) + n)
      ensures NoEmptyChunk(chunks) ==> NormalPos(chunks, cursor)
    {
      PosWindow(chunks, cursor, n);
      cursor := cursor.(off := cursor.off + n);
      if cursor.off == |chunks[cursor.slice]| {
        PosCross(chunks, cursor.slice);
        cursor := BytesPos(cursor.slice + 1, 0);
      }
    }

    method Remaining() returns (n: nat)
      requires Valid()
      ensures n == |Data()| - Pos()
    {
      PosSplit(chunks, cursor);
      var i, sum := cursor.slice, 0;
      while i < |chunks|
        invariant cursor.slice <= i <= |chunks|
        invariant sum + |Flat(chunks[i..])| == |Flat(chunks[cursor.slice..])|
      {
        FlatSplit(chunks, i);
        sum := sum + |chunks[i]|;
        i := i + 1;
      }
      assert chunks[|chunks|..] == [];
      n := sum - cursor.off;
    }

    /** One turn of the read loop: what the current chunk and the target both allow. */
    method ReadSlice(into: array<byte>, lo: nat, hi: nat) returns (len: nat)
      requires Valid() && lo <= hi <= into.Length && cursor.slice < |chunks|
      modifies this, into
      ensures Valid() && len <= hi - lo && Pos() == old(Pos()) + len
      ensures forall k :: lo <= k < lo + len ==> into[k] == Data()[old(Pos()) + k - lo]
      ensures forall k :: 0 <= k < into.Length && !(lo <= k < lo + len) ==> into[k] == old(into[k])
      ensures len < hi - lo ==> cursor.slice > old(cursor.slice)
      ensures NoEmptyChunk(chunks) && old(NormalPos(chunks, cursor)) ==> NormalPos(chunks, cursor)
    {
      hide Flat;
      var slice := chunks[cursor.slice];
      len := if |slice| - cursor.off <= hi - lo then |slice| - cursor.off else hi - lo;
      var from := slice[cursor.off..cursor.off + len];
      PosWindow(chunks, cursor, len);
      SliceAt(Data(), Pos(), from);
      forall k | 0 <= k < len {
        into[lo + k] := from[k];
      }
      Advance(len);
    }

    /** Copies as much as fits into into[lo..hi]; `ok` is false exactly when nothing was copied. */
    method Read(into: array<byte>, lo: nat, hi: nat) returns (ok: bool, n: nat)
      requires Valid() && lo <= hi <= into.Length
      modifies this, into
      ensures Valid() && Pos() == old(Pos()) + n
      ensures n == if hi - lo <= |Data()| - old(Pos()) then hi - lo else |Data()| - old(Pos())
      ensures forall k :: lo <= k < lo + n ==> into[k] == Data()[old(Pos()) + k - lo]
      ensures forall k :: 0 <= k < into.Length && !(lo <= k < lo + n) ==> into[k] == old(into[k])
      ensures ok <==> n > 0
      ensures NoEmptyChunk(chunks) && old(NormalPos(chunks, cursor)) ==> NormalPos(chunks, cursor)
    {
      hide Flat;
      n := 0;
      ghost var start := Pos();
      while cursor.slice < |chunks|
        invariant Valid() && n <= hi - lo && Pos() == start + n
        invariant forall k :: lo <= k < lo + n ==> into[k] == Data()[start + k - lo]
        invariant forall k :: 0 <= k < into.Length && !(lo <= k < lo + n) ==> into[k] == old(into[k])
        invariant NoEmptyChunk(chunks) && old(NormalPos(chunks, cursor)) ==> NormalPos(chunks, cursor)
        decreases |chunks| - cursor.slice
      {
        var len := ReadSlice(into, lo + n, hi);
        n := n + len;
        if lo + n == hi {
          break;
        }
      }
      PosSplit(chunks, cursor);
      ok := n > 0;
    }

    /** Fails on an empty target and on a short read; a short read still consumes what was left. */
    method ReadExact(into: array<byte>, lo: nat, hi: nat) returns (ok: bool)
      requires Valid() && lo <= hi <= into.Length
      modifies this, into
      ensures Valid()
      ensures ok <==> 0 < hi - lo <= |Data()| - old(Pos())
      ensures ok ==> Pos() == old(Pos()) + (hi - lo) && into[lo..hi] == Data()[old(Pos())..Pos()]
      ensures !ok && lo < hi ==> Pos() == |Data()|
      ensures NoEmptyChunk(chunks) && old(NormalPos(chunks, cursor)) ==> NormalPos(chunks, cursor)
    {
      var some, n := Read(into, lo, hi);
      ok := some && n == hi - lo;
    }

    /** Looks only at the cursor's own chunk: at (i, |cs[i]|), or on an empty chunk, it fails although bytes remain. */
    method ReadU8() returns (r: Option<byte>)
      requires Valid()
      modifies this
      ensures Valid()
      ensures r.Some? <==> old(NormalPos(chunks, cursor)) && old(Pos()) < |Data()|
      ensures r.Some? ==> r.value == Data()[old(Pos())] && Pos() == old(Pos()) + 1
      ensures r.None? ==> cursor == old(cursor)
      ensures NoEmptyChunk(chunks) && old(NormalPos(chunks, cursor)) ==> NormalPos(chunks, cursor)
    {
      PosSplit(chunks, cursor);
      if cursor.slice >= |chunks| || cursor.off >= |chunks[cursor.slice]| {
        return None;
      }
      PosWindow(chunks, cursor, 1);
      r := Some(chunks[cursor.slice][cursor.off]);
      Advance(1);
    }

    /** Succeeds exactly when the target is inside the data; a failed skip ends at the end. */
    method Skip(offset: nat) returns (ok: bool)
      requires Valid()
      modifies this
      ensures Valid()
      ensures ok <==> old(Pos()) + offset <= |Data()|
      ensures Pos() == if ok then old(Pos()) + offset else |Data()|
      ensures NoEmptyChunk(chunks) && old(NormalPos(chunks, cursor)) ==> NormalPos(chunks, cursor)
    {
      var rest := offset;
      while rest > 0
        invariant Valid() && 0 <= rest <= offset && Pos() == old(Pos()) + offset - rest
        invariant NoEmptyChunk(chunks) && old(NormalPos(chunks, cursor)) ==> NormalPos(chunks, cursor)
        decreases |chunks| - cursor.slice, rest
      {
        if cursor.slice >= |chunks| {
          PosSplit(chunks, cursor);
          return false;
        }
        var remains := |chunks[cursor.slice]| - cursor.off;
        var advance := if rest <= remains then rest else remains;
        rest := rest - advance;
        Advance(advance);
      }
      ok := true;
    }

    /** Succeeds exactly when the target is inside the data; a failed backtrack ends at the start.
        Stopping on a boundary leaves the cursor at the end of the previous chunk. */
    method Backtrack(offset: nat) returns (ok: bool)
      requires Valid()
      modifies this
      ensures Valid()
      ensures ok <==> offset <= old(Pos())
      ensures Pos() == if ok then old(Pos()) - offset else 0
    {
      var rest := offset;
      while rest > 0
        invariant Valid() && 0 <= rest <= offset && Pos() == old(Pos()) - (offset - rest)
        decreases cursor.slice, rest
      {
        var back := if rest <= cursor.off then rest else cursor.off;
        rest := rest - back;
        cursor := cursor.(off := cursor.off - back);
        if cursor.off == 0 {
          if cursor.slice == 0 {
            assert chunks[..0] == [];
            break;
          }
          PosCross(chunks, cursor.slice - 1);
          cursor := BytesPos(cursor.slice - 1, |chunks[cursor.slice - 1]|);
        }
      }
      ok := rest == 0;
    }

    /** `io::Seek`: the target is measured from the start, the cursor or the end, and reached by skip or backtrack. */
    method Seek(from: SeekFrom) returns (r: Option<nat>)
      requires Valid()
      modifies this
      ensures Valid()
      ensures var target := Target(from, old(Pos()), |Data()|);
              r == if 0 <= target <= |Data()| then Some(target) else None
      ensures Pos() == if r.Some? then r.value else if Target(from, old(Pos()), |Data()|) < 0 then 0 else |Data()|
    {
      var i, before := 0, 0;
      while i < cursor.slice
        invariant cursor == old(cursor) && i <= cursor.slice <= |chunks| && before == |Flat(chunks[..i])|
      {
        FlatSplit(chunks, i);
        before := before + |chunks[i]|;
        i := i + 1;
      }
      var current := before + cursor.off;
      var offset :=
        match from
        case Start(s) => s - current
        case Current(s) => s
        case End(s) => Len(chunks) + s - current;
      LenIsFlat(chunks);
      var ok;
      if offset > 0 {
        ok := Skip(offset);
      } else {
        ok := Backtrack(-offset);
      }
      r := if ok then Some(offset + current) else None;
    }

    /** `SeekableReader::seek` to a mark: refused past the last chunk and past the end of a chunk. */
    method SeekMark(mark: BytesPos) returns (ok: bool)
      requires Valid()
      modifies this
      ensures Valid()
      ensures ok <==> ValidPos(chunks, mark) && mark.slice < |chunks|
      ensures cursor == if ok then mark else old(cursor)
    {
      ok := mark.slice < |chunks| && mark.off <= |chunks[mark.slice]|;
      if ok {
        cursor := mark;
      }
    }

    /** One step of `BytesSliceIterator`: the part of the current chunk that is still wanted. */
    method NextSlice(wanted: nat) returns (c: Chunk)
      requires Valid() && 0 < wanted <= |Data()| - Pos()
      modifies this
      ensures Valid() && |c| <= wanted && Pos() == old(Pos()) + |c|
      ensures c == Data()[old(Pos())..Pos()]
      ensures cursor.slice >= old(cursor.slice) && (|c| < wanted ==> cursor.slice > old(cursor.slice))
      ensures NoEmptyChunk(chunks) && old(NormalPos(chunks, cursor)) ==> NormalPos(chunks, cursor) && c != []
    {
      hide Flat;
      PosSplit(chunks, cursor);
      var slice, start := chunks[cursor.slice], cursor.off;
      var len := |slice| - start;
      if wanted < len {
        c := slice[start..start + wanted];
      } else {
        c := slice[start..start + len];
      }
      PosWindow(chunks, cursor, |c|);
      Advance(|c|);
    }

    /** All or nothing: `len` bytes as a list of chunk views, or no movement at all. */
    method ReadChunks(len: nat) returns (ok: bool, out: Bytes)
      requires Valid()
      modifies this
      ensures Valid()
      ensures ok <==> len <= |Data()| - old(Pos())
      ensures ok ==> Pos() == old(Pos()) + len && Flat(out) == Data()[old(Pos())..Pos()]
      ensures !ok ==> cursor == old(cursor) && out == []
      ensures NoEmptyChunk(chunks) && old(NormalPos(chunks, cursor)) ==> NormalPos(chunks, cursor) && NoEmptyChunk(out)
    {
      out := [];
      assert Flat(out) == [];
      hide Flat;
      var available := Remaining();
      if available < len {
        return false, [];
      }
      ghost var start := Pos();
      var wanted := len;
      while wanted > 0
        invariant Valid() && 0 <= wanted <= len && Pos() == start + len - wanted
        invariant Flat(out) == Data()[start..Pos()]
        invariant NoEmptyChunk(chunks) && old(NormalPos(chunks, cursor)) ==>
                  NormalPos(chunks, cursor) && NoEmptyChunk(out)
        decreases |chunks| - cursor.slice, wanted
      {
        ghost var mid := Pos();
        var c := NextSlice(wanted);
        FlatPush(out, c);
        SliceJoin(Data(), start, mid, mid + |c|);
        out := out + [c];
        wanted := wanted - |c|;
      }
      ok := true;
    }

    /** Copies into one chunk when the bytes straddle chunks. At the very end it refuses even a zero-length read;
        a short read consumes what was left. */
    method ReadChunk(len: nat) returns (r: Option<Chunk>)
      requires Valid()
      modifies this
      ensures Valid()
      ensures r.Some? <==> old(cursor.slice) < |chunks| && len <= |Data()| - old(Pos())
      ensures r.Some? ==> Pos() == old(Pos()) + len && r.value == Data()[old(Pos())..Pos()]
      ensures r.None? ==> Pos() == |Data()|
    {
      hide Flat;
      PosSplit(chunks, cursor);
      if cursor.slice >= |chunks| {
        return None;
      }
      var slice := chunks[cursor.slice];
      if |slice| - cursor.off < len {
        var buffer := new byte[len];
        var ok := ReadExact(buffer, 0, len);
        r := if ok then Some(buffer[..]) else None;
      } else {
        PosWindow(chunks, cursor, len);
        r := Some(slice[cursor.off..cursor.off + len]);
        Advance(len);
      }
    }

    /** The fast path of the `Bytes` decoder: only bytes of the current chunk, otherwise no movement. */
    method ReadChunkContiguous(len: nat) returns (r: Option<Chunk>)
      requires Valid()
      modifies this
      ensures Valid()
      ensures r.Some? <==> old(cursor.slice) < |chunks| && len <= |chunks[old(cursor.slice)]| - old(cursor.off)
      ensures r.Some? ==> len <= |Data()| - old(Pos())
      ensures r.Some? ==> Pos() == old(Pos()) + len && r.value == Data()[old(Pos())..Pos()]
      ensures r.None? ==> cursor == old(cursor)
      ensures NoEmptyChunk(chunks) && old(NormalPos(chunks, cursor)) ==> NormalPos(chunks, cursor)
    {
      if cursor.slice >= |chunks| || |chunks[cursor.slice]| - cursor.off < len {
        return None;
      }
      PosWindow(chunks, cursor, len);
      r := Some(chunks[cursor.slice][cursor.off..cursor.off + len]);
      Advance(len);
    }
  }

  datatype SeekFrom = Start(s: nat) | Current(d: int) | End(d: int)

  function Target(from: SeekFrom, current: nat, len: nat): int
  {
    match from
    case Start(s) => s
    case Current(d) => current + d
    case End(d) => len + d
  }

  /** `Bytes::len`, a fold over the chunks. */
  function Len(cs: Bytes): nat
  {
    if cs == [] then 0 else |cs[0]| + Len(cs[1..])
  }

  lemma {:induction false} LenIsFlat(cs: Bytes)
    ensures Len(cs) == |Flat(cs)|
  {
    if cs != [] {
      LenIsFlat(cs[1..]);
    }
  }

  lemma SliceAt(s: seq<byte>, a: nat, w: seq<byte>)
    requires a + |w| <= |s| && s[a..a + |w|] == w
    ensures forall k :: 0 <= k < |w| ==> w[k] == s[a + k]
  {
    forall k | 0 <= k < |w| ensures w[k] == s[a + k] {
      assert s[a..a + |w|][k] == s[a + k];
    }
  }

  lemma SliceJoin(s: seq<byte>, a: nat, b: nat, c: nat)
    requires a <= b <= c <= |s|
    ensures s[a..b] + s[b..c] == s[a..c]
  {}

  /** `Bytes::view(a..b)`: a copy-free sub-range, whatever the chunking. */
  method View(bytes: Bytes, a: nat, b: nat) returns (r: Option<Bytes>)
    requires a <= b
    ensures r.Some? <==> b <= |Flat(bytes)|
    ensures r.Some? ==> Flat(r.value) == Flat(bytes)[a..b]
    ensures r.Some? && NoEmptyChunk(bytes) ==> NoEmptyChunk(r.value)
  {
    var reader := new BytesReader(bytes);
    var ok := reader.Skip(a);
    if !ok {
      return None;
    }
    var out;
    ok, out := reader.ReadChunks(b - a);
    r := if ok then Some(out) else None;
  }

  // ---- equality --------------------------------------------------------------------------------

  /** Number of (necessarily empty) chunks after the last byte. */
  function TrailingEmpty(cs: Bytes): nat
  {
    if Flat(cs) == [] then |cs| else TrailingEmpty(cs[1..])
  }

  ghost predicate SameBytes(l: Bytes, r: Bytes)
  {
    Flat(l) == Flat(r) && TrailingEmpty(l) == TrailingEmpty(r)
  }

  /** What is left of a list whose head lost its first m bytes; an exhausted head is dropped. */
  function Shed(cs: Bytes, m: nat): Bytes
    requires cs != [] && m <= |cs[0]|
  {
    if m == |cs[0]| then cs[1..] else [cs[0][m..]] + cs[1..]
  }

  lemma ConsFlat(c: Chunk, rest: Bytes)
    ensures Flat([c] + rest) == c + Flat(rest)
    ensures TrailingEmpty([c] + rest) == if c == [] && Flat(rest) == [] then 1 + |rest| else TrailingEmpty(rest)
  {
    assert ([c] + rest)[1..] == rest;
  }

  lemma ShedFlat(cs: Bytes, m: nat)
    requires cs != [] && m <= |cs[0]|
    ensures Flat(cs) == cs[0][..m] + Flat(Shed(cs, m))
    ensures cs[0] != [] ==> TrailingEmpty(Shed(cs, m)) == TrailingEmpty(cs)
    ensures Flat(Shed(cs, m)) != [] ==> TrailingEmpty(Shed(cs, m)) == TrailingEmpty(cs)
  {
    assert cs == [cs[0]] + cs[1..];
    ConsFlat(cs[0], cs[1..]);
    ConsFlat(cs[0][m..], cs[1..]);
    hide Flat, TrailingEmpty;
    assert cs[0] == cs[0][..m] + cs[0][m..];
  }

  /** One turn of the comparison loop. */
  lemma ShedSame(l: Bytes, r: Bytes, m: nat)
    requires l != [] && r != []
    requires m == if |l[0]| <= |r[0]| then |l[0]| else |r[0]|
    ensures l[0][..m] != r[0][..m] ==> Flat(l) != Flat(r)
    ensures l[0][..m] == r[0][..m] ==> (SameBytes(l, r) <==> SameBytes(Shed(l, m), Shed(r, m)))
  {
    ShedFlat(l, m);
    ShedFlat(r, m);
    var h, k := l[0][..m], r[0][..m];
    assert Flat(l)[..m] == h && Flat(l)[m..] == Flat(Shed(l, m));
    assert Flat(r)[..m] == k && Flat(r)[m..] == Flat(Shed(r, m));
  }

  lemma Unequal(l: Bytes, r: Bytes)
    requires (l == []) != (r == [])
    ensures !SameBytes(l, r)
  {
    if Flat(l) == Flat(r) {
      assert Flat(l) == [] && Flat(r) == [];
    }
  }

  /** `PartialEq for Bytes`, the two-cursor loop. */
  method Equal(l: Bytes, r: Bytes) returns (eq: bool)
    ensures eq <==> Flat(l) == Flat(r) && TrailingEmpty(l) == TrailingEmpty(r)
  {
    var ls, rs := l, r;
    while true
      invariant SameBytes(l, r) <==> SameBytes(ls, rs)
      decreases |ls| + |rs|, Len(ls) + Len(rs)
    {
      if ls == [] && rs == [] {
        return true;
      }
      if ls == [] || rs == [] {
        Unequal(ls, rs);
        return false;
      }
      var m := if |ls[0]| <= |rs[0]| then |ls[0]| else |rs[0]|;
      ShedSame(ls, rs, m);
      if ls[0][..m] != rs[0][..m] {
        return false;
      }
      ls, rs := Shed(ls, m), Shed(rs, m);
    }
  }

  lemma {:induction false} NoTrailing(cs: Bytes)
    requires NoEmptyChunk(cs)
    ensures TrailingEmpty(cs) == 0
  {
    if cs != [] {
      assert cs[0] != [];
      NoTrailing(cs[1..]);
    }
  }

  /** Without empty chunks the comparison decides equality of the bytes. */
  lemma EqualityIsFlat(l: Bytes, r: Bytes)
    requires NoEmptyChunk(l) && NoEmptyChunk(r)
    ensures SameBytes(l, r) <==> Flat(l) == Flat(r)
  {
    NoTrailing(l);
    NoTrailing(r);
  }

  /** With them it does not: no chunk and one empty chunk hold the same bytes and compare different. */
  lemma EmptyChunkBreaksEquality()
    ensures Flat([]) == Flat([[]]) && !SameBytes([], [[]])
  {
    assert TrailingEmpty([[]]) == 1;
    assert TrailingEmpty([]) == 0;
  }
}
