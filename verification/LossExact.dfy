/** Exactly when reassembly over a lossy link is sound. The buffers are watched: beside the bytes, each records which
    fragments of the stream it took. A loss breaks a message if a buffer hands on anything but the consecutive
    fragments of one message, from its First to its Last. */
module LossExact {
  import opened Base
  import opened Codec
  import opened TxSpec
  import opened Loss
  import RxSpec

  // ---- a watched buffer ------------------------------------------------------------------------

  /** A reassembly buffer and the fragments it took since it was last emptied. */
  datatype Watched = Watched(d: RxSpec.Defrag, took: seq<nat>)

  const NEW_WATCHED := Watched(RxSpec.NEW_DEFRAG, [])

  function Offered(out: seq<Batch>, d: RxSpec.Defrag, g: nat, cap: nat): (RxSpec.Defrag, RxSpec.Accept)
    requires g < |out| && out[g].FragBatch?
  {
    var b := out[g];
    RxSpec.Fragment(d, b.qos, b.seqNum, b.kind, b.fragId, b.payload, cap)
  }

  /** The fragments behind what a fragment g completes or joins. */
  function Joined(out: seq<Batch>, t: Watched, g: nat): seq<nat>
    requires g < |out| && out[g].FragBatch?
  {
    if out[g].kind.First? then [g] else t.took + [g]
  }

  function Watch(out: seq<Batch>, t: Watched, g: nat, cap: nat): Watched
    requires g < |out| && out[g].FragBatch?
  {
    var (d, a) := Offered(out, t.d, g, cap);
    Watched(d, match a
               case Stored => Joined(out, t, g)
               case Queue(_) => []
               case Refused(_) => if out[g].kind.Last? then t.took else [])
  }

  /** The payloads of some batches, one after the other. */
  function BytesOf(out: seq<Batch>, took: seq<nat>): seq<byte>
    requires forall i :: 0 <= i < |took| ==> took[i] < |out| && out[took[i]].FragBatch?
  {
    if took == [] then []
    else BytesOf(out, took[..|took| - 1]) + out[took[|took| - 1]].payload
  }

  predicate InStream(out: seq<Batch>, took: seq<nat>)
  {
    forall i :: 0 <= i < |took| ==> took[i] < |out| && out[took[i]].FragBatch?
  }

  /** The record is true: the buffer holds the payloads of exactly the fragments it took. */
  predicate Truthful(out: seq<Batch>, t: Watched)
  {
    InStream(out, t.took) && t.d.buf == BytesOf(out, t.took)
  }

  lemma BytesOfPush(out: seq<Batch>, took: seq<nat>, g: nat)
    requires InStream(out, took) && g < |out| && out[g].FragBatch?
    ensures InStream(out, took + [g]) && BytesOf(out, took + [g]) == BytesOf(out, took) + out[g].payload
  {
    assert (took + [g])[..|took|] == took;
  }

  /** What a fragment does to the bytes. */
  lemma OfferedBytes(out: seq<Batch>, d: RxSpec.Defrag, g: nat, cap: nat)
    requires g < |out| && out[g].FragBatch?
    ensures var ((d', a), b) := (Offered(out, d, g, cap), out[g]);
            match a
            case Stored => !b.kind.Last? && d'.buf == (if b.kind.First? then [] else d.buf) + b.payload
            case Queue(item) => b.kind.Last? && d'.buf == [] && item == RxSpec.Item(b.qos, d.buf + b.payload)
            case Refused(_) => d'.buf == if b.kind.Last? then d.buf else []
  {}

  lemma WatchTruthful(out: seq<Batch>, t: Watched, g: nat, cap: nat)
    requires Truthful(out, t) && g < |out| && out[g].FragBatch?
    ensures Truthful(out, Watch(out, t, g, cap)) && InStream(out, Joined(out, t, g))
    ensures var a := Offered(out, t.d, g, cap).1;
            a.Queue? ==> a.item == RxSpec.Item(out[g].qos, BytesOf(out, Joined(out, t, g)))
  {
    hide BytesOf, InStream, Offered;
    OfferedBytes(out, t.d, g, cap);
    BytesOfPush(out, t.took, g);
    BytesOfOne(out, g);
    assert [] + out[g].payload == out[g].payload;
  }

  lemma BytesOfOne(out: seq<Batch>, g: nat)
    requires g < |out| && out[g].FragBatch?
    ensures InStream(out, [g]) && BytesOf(out, [g]) == out[g].payload && InStream(out, []) && BytesOf(out, []) == []
  {
    BytesOfPush(out, [], g);
    assert [] + [g] == [g];
  }

  // ---- losses ----------------------------------------------------------------------------------

  /** The batches a loss leaves: indices of the stream, increasing. */
  predicate Kept(out: seq<Batch>, kept: seq<nat>)
  {
    kept != [] ==> Kept(out, kept[..|kept| - 1]) && NextIndex(kept[..|kept| - 1]) <= kept[|kept| - 1] < |out|
  }

  /** The first index that can still arrive. */
  function NextIndex(kept: seq<nat>): nat
  {
    if kept == [] then 0 else kept[|kept| - 1] + 1
  }

  predicate Mine(b: Batch, cc: CongestionControl)
  {
    b.FragBatch? && b.qos.cc == cc
  }

  /** The buffer of class cc once the kept batches have arrived. */
  function Arrived(out: seq<Batch>, kept: seq<nat>, cap: nat, cc: CongestionControl): Watched
    requires Kept(out, kept)
  {
    if kept == [] then NEW_WATCHED
    else
      var t, g := Arrived(out, kept[..|kept| - 1], cap, cc), kept[|kept| - 1];
      if Mine(out[g], cc) then Watch(out, t, g, cap) else t
  }

  /** The last arrival completes something made of the fragments `took`. */
  predicate Completed(out: seq<Batch>, kept: seq<nat>, cap: nat, took: seq<nat>)
    requires Kept(out, kept)
  {
    kept != [] &&
    var g := kept[|kept| - 1];
    && out[g].FragBatch?
    && var t := Arrived(out, kept[..|kept| - 1], cap, out[g].qos.cc);
       Offered(out, t.d, g, cap).1.Queue? && took == Joined(out, t, g)
  }

  /** The fragments of a message up to fragment k, consecutive in the stream. */
  function Stretch(out: seq<Batch>, k: nat): seq<nat>
    requires k < |out|
  {
    (if k > 0 && Continues(out[k]) then Stretch(out, k - 1) else []) + [k]
  }

  /** Whatever is lost, what a Last completes is its own message, from the First on, without a gap. */
  ghost predicate Intact(out: seq<Batch>, cap: nat)
  {
    forall kept, took :: Kept(out, kept) && Completed(out, kept, cap, took) ==> took == Stretch(out, kept[|kept| - 1])
  }

  // ---- the condition, on the numbers alone -----------------------------------------------------

  /** From fragment k on the message reaches its Last. */
  predicate Completes(out: seq<Batch>, k: nat)
    requires k < |out|
    decreases |out| - k
  {
    && out[k].FragBatch?
    && (out[k].kind.Last? || (k + 1 < |out| && Continues(out[k + 1]) && Completes(out, k + 1)))
  }

  /** Batch k + 1 ends up in a completed message, and looks like the successor of the earlier batch j. */
  predicate Mistakable(out: seq<Batch>, j: nat, k: nat)
  {
    && j < k < |out| - 1 && Confusable(out[j], out[k])
    && Continues(out[k + 1]) && Completes(out, k + 1)
  }

  /** A fresh buffer would take the continuation k, and its message is completed. */
  predicate Orphan(out: seq<Batch>, k: nat)
  {
    k < |out| && Continues(out[k]) && out[k].seqNum == 0 && out[k].fragId == 0 && Completes(out, k)
  }

  ghost predicate Harmless(out: seq<Batch>)
  {
    (forall j, k :: !Mistakable(out, j, k)) && forall k :: !Orphan(out, k)
  }

  /** Fewer than 2^28 batches of a class are enough, for then no two fragments share both numbers. */
  lemma FewIsHarmless(out: seq<Batch>)
    requires Numbered(out) && Few(out)
    ensures Harmless(out)
  {
    hide Numbered, Completes;
    ShortStreamsAreDistinct(out);
  }

  // ---- harmless streams are intact -------------------------------------------------------------

  /** Of the messages that get completed, the buffer waits for batch n or none; if for n, it took what precedes n. */
  ghost predicate Aligned(out: seq<Batch>, t: Watched, cc: CongestionControl, n: nat)
  {
    forall k :: n <= k < |out| && Expected(t.d, cc, out[k]) && Completes(out, k) ==>
        k == n && t.took + [k] == Stretch(out, k)
  }

  lemma AlignedStart(out: seq<Batch>, cc: CongestionControl)
    requires Harmless(out)
    ensures Aligned(out, NEW_WATCHED, cc, 0)
  {
    hide Completes, Stretch;
    forall k | 0 <= k < |out| && Expected(NEW_WATCHED.d, cc, out[k]) ensures !Completes(out, k) {
      assert !Orphan(out, k);
    }
  }

  lemma AlignedSkip(out: seq<Batch>, t: Watched, t': Watched, cc: CongestionControl, n: nat, n': nat)
    requires Aligned(out, t, cc, n) && n < n' && t'.d.seqNum == t.d.seqNum && t'.d.fragId == t.d.fragId
    ensures Aligned(out, t', cc, n')
  {
    hide Completes, Stretch;
    forall k | n' <= k < |out| && Completes(out, k) ensures !Expected(t'.d, cc, out[k]) {
      SameExpected(t.d, t'.d, cc, out[k]);
    }
  }

  lemma NotMistakable(out: seq<Batch>, j: nat, k: nat)
    requires Harmless(out) && j < k < |out| - 1 && Continues(out[k + 1]) && Completes(out, k + 1)
    ensures !Confusable(out[j], out[k])
  {
    assert !Mistakable(out, j, k);
  }

  lemma AlignedTake(out: seq<Batch>, t: Watched, cc: CongestionControl, g: nat)
    requires Linked(out) && Harmless(out) && g < |out| && Mine(out[g], cc)
    requires t.d.seqNum == NextSeq(out[g].seqNum) && t.d.fragId == out[g].fragId
    requires !out[g].kind.Last? && Completes(out, g) ==> t.took == Stretch(out, g)
    ensures Aligned(out, t, cc, g + 1)
  {
    hide Stretch;
    forall k | g < k < |out| && Expected(t.d, cc, out[k]) && Completes(out, k)
      ensures k == g + 1 && t.took + [k] == Stretch(out, k)
    {
      assert Follows(out[k - 1], out[k]);
      if k > g + 1 {
        NotMistakable(out, g, k - 1);
        assert false;
      }
      StretchNext(out, k);
    }
  }

  lemma StretchNext(out: seq<Batch>, k: nat)
    requires 0 < k < |out| && Continues(out[k])
    ensures Stretch(out, k) == Stretch(out, k - 1) + [k]
  {}

  lemma StretchFirst(out: seq<Batch>, k: nat)
    requires k < |out| && !Continues(out[k])
    ensures Stretch(out, k) == [k]
  {}

  /** One arrival, when the capacity is enough for a first fragment. */
  lemma WatchAligned(out: seq<Batch>, t: Watched, cc: CongestionControl, n: nat, g: nat, cap: nat)
    requires Linked(out) && Harmless(out) && Aligned(out, t, cc, n) && n <= g < |out| && Mine(out[g], cc)
    requires out[g].kind.First? ==> |out[g].payload| <= cap
    ensures Aligned(out, Watch(out, t, g, cap), cc, g + 1)
    ensures Offered(out, t.d, g, cap).1.Queue? ==> Joined(out, t, g) == Stretch(out, g)
  {
    hide Linked, Harmless, Stretch;
    var b := out[g];
    var t' := Watch(out, t, g, cap);
    var start := if b.kind.First? then RxSpec.Defrag(b.seqNum, b.fragId, []) else t.d;
    var (e, err) := RxSpec.Extend(start, b.seqNum, b.fragId, b.payload, cap);
    if err.None? {
      if b.kind.First? {
        StretchFirst(out, g);
      } else {
        assert Expected(t.d, cc, b);
        assert Completes(out, g) ==> t.took + [g] == Stretch(out, g);
      }
      hide Aligned;
      AlignedTake(out, t', cc, g);
    } else {
      hide Aligned;
      AlignedSkip(out, t, t', cc, n, g + 1);
    }
  }

  predicate FirstsFit(out: seq<Batch>, cap: nat)
  {
    forall g :: 0 <= g < |out| && out[g].FragBatch? && out[g].kind.First? ==> |out[g].payload| <= cap
  }

  lemma {:induction false} ArrivedAligned(out: seq<Batch>, kept: seq<nat>, cap: nat, cc: CongestionControl)
    requires Linked(out) && Harmless(out) && FirstsFit(out, cap) && Kept(out, kept)
    ensures Aligned(out, Arrived(out, kept, cap, cc), cc, NextIndex(kept)) && Truthful(out, Arrived(out, kept, cap, cc))
  {
    hide Linked, Harmless, Aligned, Truthful, Watch;
    if kept == [] {
      AlignedStart(out, cc);
      assert Truthful(out, NEW_WATCHED) by { NewTruthful(out); }
    } else {
      var front, g := kept[..|kept| - 1], kept[|kept| - 1];
      ArrivedAligned(out, front, cap, cc);
      var t := Arrived(out, front, cap, cc);
      if Mine(out[g], cc) {
        WatchAligned(out, t, cc, NextIndex(front), g, cap);
        WatchTruthful(out, t, g, cap);
      } else {
        AlignedSkip(out, t, t, cc, NextIndex(front), g + 1);
      }
    }
  }

  lemma NewTruthful(out: seq<Batch>)
    ensures Truthful(out, NEW_WATCHED)
  {}

  lemma HarmlessIsIntact(out: seq<Batch>, cap: nat)
    requires Linked(out) && Harmless(out) && FirstsFit(out, cap)
    ensures Intact(out, cap)
  {
    hide Linked, Harmless, Arrived, Offered, Joined, Stretch, FirstsFit;
    forall kept, took | Kept(out, kept) && Completed(out, kept, cap, took)
      ensures took == Stretch(out, kept[|kept| - 1])
    {
      var front, g := kept[..|kept| - 1], kept[|kept| - 1];
      ArrivedAligned(out, front, cap, out[g].qos.cc);
      FirstFits(out, g, cap);
      WatchAligned(out, Arrived(out, front, cap, out[g].qos.cc), out[g].qos.cc, NextIndex(front), g, cap);
    }
  }

  lemma FirstFits(out: seq<Batch>, g: nat, cap: nat)
    requires FirstsFit(out, cap) && g < |out| && out[g].FragBatch?
    ensures out[g].kind.First? ==> |out[g].payload| <= cap
  {}

  // ---- the others are not ----------------------------------------------------------------------

  /** The payload bytes of the first n batches. */
  function SumTo(out: seq<Batch>, n: nat): nat
    requires n <= |out|
  {
    if n == 0 then 0 else SumTo(out, n - 1) + if out[n - 1].FragBatch? then |out[n - 1].payload| else 0
  }

  /** The receiver's limit is no obstacle: nothing that could be put together exceeds it. */
  predicate Roomy(out: seq<Batch>, cap: nat)
  {
    SumTo(out, |out|) <= cap
  }

  lemma {:induction false} SumGrows(out: seq<Batch>, m: nat, n: nat)
    requires m <= n <= |out|
    ensures SumTo(out, m) <= SumTo(out, n)
    decreases n
  {
    if m < n {
      SumGrows(out, m, n - 1);
    }
  }

  lemma SumAt(out: seq<Batch>, g: nat, cap: nat)
    requires g < |out| && Roomy(out, cap) && out[g].FragBatch?
    ensures SumTo(out, g) + |out[g].payload| == SumTo(out, g + 1) <= cap
  {
    SumGrows(out, g + 1, |out|);
  }

  lemma RoomyFits(out: seq<Batch>, cap: nat)
    requires Roomy(out, cap)
    ensures FirstsFit(out, cap)
  {
    hide Roomy;
    forall g | 0 <= g < |out| && out[g].FragBatch? ensures |out[g].payload| <= cap {
      SumAt(out, g, cap);
    }
  }

  /** The buffer stands right before fragment k and has room for it. */
  ghost predicate Ready(out: seq<Batch>, t: Watched, k: nat)
  {
    k < |out| && t.d.seqNum == out[k].seqNum && out[k].FragBatch? && t.d.fragId == out[k].fragId &&
        |t.d.buf| <= SumTo(out, k)
  }

  /** A buffer that is ready for a continuation takes it. */
  lemma ReadyTakes(out: seq<Batch>, t: Watched, k: nat, cap: nat)
    requires Ready(out, t, k) && Roomy(out, cap) && Continues(out[k])
    ensures var (t', a) := (Watch(out, t, k, cap), Offered(out, t.d, k, cap).1);
            && t'.d.seqNum == NextSeq(out[k].seqNum) && t'.d.fragId == out[k].fragId && |t'.d.buf| <= SumTo(out, k + 1)
            && if out[k].kind.Last? then a.Queue? && t'.took == [] else a.Stored? && t'.took == t.took + [k]
  {
    SumAt(out, k, cap);
  }

  lemma FirstTakes(out: seq<Batch>, t: Watched, k: nat, cap: nat)
    requires k < |out| && out[k].FragBatch? && out[k].kind.First? && Roomy(out, cap)
    ensures var t' := Watch(out, t, k, cap);
            && t'.d.seqNum == NextSeq(out[k].seqNum) && t'.d.fragId == out[k].fragId && |t'.d.buf| <= SumTo(out, k + 1)
            && t'.took == [k]
  {
    SumAt(out, k, cap);
  }

  lemma KeptPush(out: seq<Batch>, kept: seq<nat>, g: nat)
    requires Kept(out, kept) && NextIndex(kept) <= g < |out|
    ensures Kept(out, kept + [g]) && NextIndex(kept + [g]) == g + 1
    ensures (kept + [g])[..|kept|] == kept && (kept + [g])[|kept|] == g
  {
    assert (kept + [g])[..|kept|] == kept;
  }

  lemma ArrivedPush(out: seq<Batch>, kept: seq<nat>, g: nat, cap: nat, cc: CongestionControl)
    requires Kept(out, kept) && NextIndex(kept) <= g < |out|
    ensures Kept(out, kept + [g])
    ensures Arrived(out, kept + [g], cap, cc) ==
            var t := Arrived(out, kept, cap, cc); if Mine(out[g], cc) then Watch(out, t, g, cap) else t
  {
    KeptPush(out, kept, g);
    hide Watch;
  }

  /** From fragment k on, to the Last. */
  function Chain(out: seq<Batch>, k: nat): (r: seq<nat>)
    requires k < |out| && Completes(out, k)
    ensures r != []
    decreases |out| - k
  {
    if out[k].kind.Last? then [k] else [k] + Chain(out, k + 1)
  }

  lemma ChainEnd(out: seq<Batch>, k: nat)
    requires k < |out| && Completes(out, k)
    ensures out[k].FragBatch? && (out[k].kind.Last? ==> Chain(out, k) == [k])
  {}

  lemma ChainNext(out: seq<Batch>, k: nat)
    requires k < |out| && Completes(out, k) && !out[k].kind.Last?
    ensures k + 1 < |out| && Continues(out[k + 1]) && Completes(out, k + 1) && Chain(out, k) == [k] + Chain(out, k + 1)
  {}

  /** A buffer that is ready for a continuation takes the rest of its message, and hands on what it had with it. */
  lemma {:induction false} FeedChain(out: seq<Batch>, kept: seq<nat>, k: nat, cap: nat)
    requires Linked(out) && Roomy(out, cap) && Kept(out, kept) && NextIndex(kept) <= k < |out|
    requires Continues(out[k]) && Completes(out, k) && Ready(out, Arrived(out, kept, cap, out[k].qos.cc), k)
    ensures Kept(out, kept + Chain(out, k))
    ensures Completed(out, kept + Chain(out, k), cap, Arrived(out, kept, cap, out[k].qos.cc).took + Chain(out, k))
    decreases |out| - k
  {
    hide Linked, Roomy, Watch, Arrived, Offered, Ready, Chain, Completes;
    var cc := out[k].qos.cc;
    var t := Arrived(out, kept, cap, cc);
    ChainEnd(out, k);
    ReadyTakes(out, t, k, cap);
    KeptPush(out, kept, k);
    ArrivedPush(out, kept, k, cap, cc);
    if !out[k].kind.Last? {
      hide Completed, Kept;
      ChainNext(out, k);
      NextReady(out, Watch(out, t, k, cap), k);
      FeedChain(out, kept + [k], k + 1, cap);
      Cons(kept, k, Chain(out, k + 1));
      Cons(t.took, k, Chain(out, k + 1));
    }
  }

  lemma Cons(a: seq<nat>, k: nat, c: seq<nat>)
    ensures a + [k] + c == a + ([k] + c)
  {}

  lemma NextReady(out: seq<Batch>, t: Watched, k: nat)
    requires Linked(out) && k + 1 < |out| && Continues(out[k + 1])
    requires t.d.seqNum == NextSeq(out[k].seqNum) && out[k].FragBatch? && t.d.fragId == out[k].fragId
    requires |t.d.buf| <= SumTo(out, k + 1)
    ensures Ready(out, t, k + 1) && out[k + 1].qos == out[k].qos && !out[k].kind.Last?
  {
    assert Follows(out[k], out[k + 1]);
  }

  /** A message can arrive alone, up to any fragment: then the buffer waits for the number that follows. */
  lemma {:induction false} FeedStretch(out: seq<Batch>, j: nat, cap: nat)
    requires Linked(out) && Roomy(out, cap) && j < |out| && out[j].FragBatch?
    ensures Kept(out, Stretch(out, j)) && NextIndex(Stretch(out, j)) == j + 1
    ensures var t := Arrived(out, Stretch(out, j), cap, out[j].qos.cc);
            && t.d.seqNum == NextSeq(out[j].seqNum) && t.d.fragId == out[j].fragId && |t.d.buf| <= SumTo(out, j + 1)
            && t.took == if out[j].kind.Last? then [] else Stretch(out, j)
  {
    hide Linked, Roomy, Watch, Arrived, Offered;
    var cc := out[j].qos.cc;
    if Continues(out[j]) {
      LinkedAt(out, j);
      FeedStretch(out, j - 1, cap);
      StretchNext(out, j);
      var t := Arrived(out, Stretch(out, j - 1), cap, cc);
      NextReady(out, t, j - 1);
      ReadyTakes(out, t, j, cap);
      KeptPush(out, Stretch(out, j - 1), j);
      ArrivedPush(out, Stretch(out, j - 1), j, cap, cc);
    } else {
      StretchFirst(out, j);
      FirstTakes(out, Arrived(out, [], cap, cc), j, cap);
      KeptPush(out, [], j);
      ArrivedPush(out, [], j, cap, cc);
      assert [] + [j] == [j];
    }
  }

  lemma LinkedAt(out: seq<Batch>, k: nat)
    requires Linked(out) && k < |out| && Continues(out[k])
    ensures k > 0 && Follows(out[k - 1], out[k])
  {}

  lemma {:induction false} StretchOfChain(out: seq<Batch>, k: nat)
    requires Linked(out) && k < |out| && Completes(out, k) && Continues(out[k])
    ensures k > 0
    ensures var c := Chain(out, k);
            c[|c| - 1] < |out| && Stretch(out, c[|c| - 1]) == Stretch(out, k - 1) + c
    decreases |out| - k
  {
    hide Linked, Stretch, Completes, Chain;
    LinkedAt(out, k);
    StretchNext(out, k);
    ChainEnd(out, k);
    if !out[k].kind.Last? {
      ChainNext(out, k);
      StretchOfChain(out, k + 1);
      ConsLast(Stretch(out, k - 1), k, Chain(out, k + 1), Chain(out, k));
    }
  }

  lemma ConsLast(u: seq<nat>, k: nat, c: seq<nat>, d: seq<nat>)
    requires c != [] && d == [k] + c
    ensures u + [k] + c == u + d && d[|d| - 1] == c[|c| - 1]
  {}

  lemma StretchEnds(out: seq<Batch>, k: nat)
    requires k < |out|
    ensures Stretch(out, k) != [] && Stretch(out, k)[|Stretch(out, k)| - 1] == k
  {}

  lemma Cancel(a: seq<nat>, b: seq<nat>, c: seq<nat>)
    requires a + c == b + c
    ensures a == b
  {
    assert |a| == |b|;
    assert a == (a + c)[..|a|] && b == (b + c)[..|b|];
  }

  /** If the buffer ready for k + 1 did not take the message's fragments up to k, the loss breaks the message. */
  lemma ChainBreaks(out: seq<Batch>, kept: seq<nat>, k: nat, cap: nat)
    requires Linked(out) && Roomy(out, cap) && Kept(out, kept) && NextIndex(kept) <= k < |out|
    requires Continues(out[k]) && Completes(out, k) && Ready(out, Arrived(out, kept, cap, out[k].qos.cc), k)
    requires k == 0 || Arrived(out, kept, cap, out[k].qos.cc).took != Stretch(out, k - 1)
    ensures !Intact(out, cap)
  {
    hide *;
    var t := Arrived(out, kept, cap, out[k].qos.cc);
    var c := Chain(out, k);
    FeedChain(out, kept, k, cap);
    StretchOfChain(out, k);
    if Intact(out, cap) {
      IntactAt(out, kept, c, cap, t.took + c);
      Cancel(t.took, Stretch(out, k - 1), c);
      assert false;
    }
  }

  lemma IntactAt(out: seq<Batch>, kept: seq<nat>, c: seq<nat>, cap: nat, took: seq<nat>)
    requires Intact(out, cap) && c != [] && Kept(out, kept + c) && Completed(out, kept + c, cap, took)
    ensures c[|c| - 1] < |out| && took == Stretch(out, c[|c| - 1])
  {
    hide Completed, Stretch;
    var all := kept + c;
    assert all[|all| - 1] == c[|c| - 1];
  }

  /** A fragment mistaken for the successor of another: lose everything between the two. */
  lemma MistakableBreaks(out: seq<Batch>, j: nat, k: nat, cap: nat)
    requires Linked(out) && Roomy(out, cap) && Mistakable(out, j, k)
    ensures !Intact(out, cap)
  {
    hide Roomy, Arrived, Intact, Stretch;
    LinkedAt(out, k + 1);
    FeedStretch(out, j, cap);
    SumGrows(out, j + 1, k + 1);
    StretchEnds(out, j);
    StretchEnds(out, k);
    hide Linked, Completes;
    ChainBreaks(out, Stretch(out, j), k + 1, cap);
  }

  /** A continuation a fresh buffer waits for: lose everything before it. */
  lemma OrphanBreaks(out: seq<Batch>, k: nat, cap: nat)
    requires Linked(out) && Roomy(out, cap) && Orphan(out, k)
    ensures !Intact(out, cap)
  {
    LinkedAt(out, k);
    StretchEnds(out, k - 1);
    hide Linked, Completes, Roomy, Intact, Stretch;
    ChainBreaks(out, [], k, cap);
  }

  /** The exact condition. For a stream whose fragments follow their predecessors and a receiver whose limit is no
      obstacle: no loss whatever makes a buffer complete anything but whole messages if and only if the numbers are
      harmless. */
  lemma IntactIsHarmless(out: seq<Batch>, cap: nat)
    requires Linked(out) && Roomy(out, cap)
    ensures Intact(out, cap) <==> Harmless(out)
  {
    hide Linked, Roomy, Intact, Mistakable, Orphan;
    if Harmless(out) {
      RoomyFits(out, cap);
      HarmlessIsIntact(out, cap);
    } else if j, k :| Mistakable(out, j, k) {
      MistakableBreaks(out, j, k, cap);
    } else {
      var k :| Orphan(out, k);
      OrphanBreaks(out, k, cap);
    }
  }

  /** Put without a bound of its own: the numbers are harmless if and only if the stream is intact under every limit
      that first fragments keep within. */
  lemma HarmlessIsExact(out: seq<Batch>)
    requires Linked(out)
    ensures Harmless(out) <==> forall cap: nat :: FirstsFit(out, cap) ==> Intact(out, cap)
  {
    hide Linked, Harmless, Intact, FirstsFit, SumTo;
    var enough := SumTo(out, |out|);
    assert Roomy(out, enough);
    hide Roomy;
    RoomyFits(out, enough);
    IntactIsHarmless(out, enough);
    if Harmless(out) {
      forall cap: nat | FirstsFit(out, cap) ensures Intact(out, cap) {
        HarmlessIsIntact(out, cap);
      }
    }
  }

  // ---- the receiver's buffers ------------------------------------------------------------------

  /** The batches of lane p that arrived. */
  function KeptOf(arrivals: seq<Arrival>, p: Priority): seq<nat>
  {
    if arrivals == [] then []
    else
      var last := arrivals[|arrivals| - 1];
      KeptOf(arrivals[..|arrivals| - 1], p) + if last.p == p then [last.k] else []
  }

  lemma {:induction false} KeptOfOk(outs: seq<seq<Batch>>, arrivals: seq<Arrival>, p: Priority)
    requires |outs| == 4 && InOrder(outs, arrivals)
    ensures Kept(outs[p], KeptOf(arrivals, p)) && NextIndex(KeptOf(arrivals, p)) == NextOf(arrivals, p)
  {
    if arrivals != [] {
      var front, last := arrivals[..|arrivals| - 1], arrivals[|arrivals| - 1];
      KeptOfOk(outs, front, p);
      hide Kept;
      if last.p == p {
        KeptPush(outs[p], KeptOf(front, p), last.k);
      } else {
        assert KeptOf(front, p) + [] == KeptOf(front, p);
      }
    }
  }

  function BufferOf(rx: RxSpec.Rx, p: Priority, cc: CongestionControl): RxSpec.Defrag
    requires RxSpec.Shape(rx)
  {
    if cc.Block? then rx.block[p] else rx.drop[p]
  }

  /** The receiver's buffer for lane p and class cc is the watched one. */
  lemma {:induction false} FeedIsArrived(outs: seq<seq<Batch>>, arrivals: seq<Arrival>, cap: nat, p: Priority,
      cc: CongestionControl)
    requires |outs| == 4 && InOrder(outs, arrivals) && RightLanes(outs)
    ensures Kept(outs[p], KeptOf(arrivals, p))
    ensures BufferOf(Feed(outs, arrivals, cap), p, cc) == Arrived(outs[p], KeptOf(arrivals, p), cap, cc).d
  {
    KeptOfOk(outs, arrivals, p);
    if arrivals != [] {
      var front, last := arrivals[..|arrivals| - 1], arrivals[|arrivals| - 1];
      FeedIsArrived(outs, front, cap, p, cc);
      KeptOfOk(outs, front, p);
      var rx, b := Feed(outs, front, cap), outs[last.p][last.k];
      ReceiveBuffer(rx, b, last.p, cap, p, cc);
      hide Watch, Kept, Arrived, RxSpec.Receive, Wire, RxSpec.Fragment;
      if last.p == p {
        ArrivedPush(outs[p], KeptOf(front, p), last.k, cap, cc);
        WatchedBuffer(outs[p], Arrived(outs[p], KeptOf(front, p), cap, cc), last.k, cap);
      } else {
        assert KeptOf(front, p) + [] == KeptOf(front, p);
      }
    }
  }

  lemma WatchedBuffer(out: seq<Batch>, t: Watched, g: nat, cap: nat)
    requires g < |out|
    ensures out[g].FragBatch? ==> Watch(out, t, g, cap).d == Offered(out, t.d, g, cap).0
  {}

  ghost predicate RightLanes(outs: seq<seq<Batch>>)
    requires |outs| == 4
  {
    forall p: Priority, k: nat :: k < |outs[p]| ==> outs[p][k].qos.priority == p
  }

  lemma ReceiveBuffer(rx: RxSpec.Rx, b: Batch, at: Priority, cap: nat, p: Priority, cc: CongestionControl)
    requires RxSpec.Shape(rx) && b.qos.priority == at
    ensures var rx' := RxSpec.Receive(rx, Wire(b), cap).0;
            && RxSpec.Shape(rx')
            && BufferOf(rx', p, cc) ==
               if Mine(b, cc) && at == p then
                 RxSpec.Fragment(BufferOf(rx, p, cc), b.qos, b.seqNum, b.kind, b.fragId, b.payload, cap).0
               else BufferOf(rx, p, cc)
  {
    ReceiveWire(rx, b, cap);
    hide RxSpec.Receive, Wire, RxSpec.Fragment;
  }

  lemma {:induction false} BytesOfStretch(out: seq<Batch>, k: nat)
    requires Linked(out) && k < |out| && out[k].FragBatch?
    ensures InStream(out, Stretch(out, k)) && BytesOf(out, Stretch(out, k)) == Upto(out, k)
  {
    if Continues(out[k]) {
      LinkedAt(out, k);
      BytesOfStretch(out, k - 1);
      BytesOfPush(out, Stretch(out, k - 1), k);
    } else {
      BytesOfOne(out, k);
      StretchFirst(out, k);
      hide BytesOf;
      assert [] + out[k].payload == out[k].payload;
    }
  }

  ghost predicate HarmlessStreams(outs: seq<seq<Batch>>, logs: seq<Log>, cap: nat)
  {
    && |outs| == 4 && |logs| == 4 && RightLanes(outs)
    && forall p: Priority :: Stream(outs[p], logs[p]) && Harmless(outs[p]) && FirstsFit(outs[p], cap)
  }

  /** What a fragment that arrives last can put into the queue. */
  lemma FragmentDelivers(out: seq<Batch>, kept: seq<nat>, k: nat, cap: nat)
    requires Linked(out) && Harmless(out) && FirstsFit(out, cap) && Kept(out, kept) && NextIndex(kept) <= k < |out|
    requires out[k].FragBatch?
    ensures var t := Arrived(out, kept, cap, out[k].qos.cc); Delivers(out, k, Offered(out, t.d, k, cap).1)
  {
    hide Linked, Harmless, Arrived, FirstsFit, Aligned, Truthful, Kept, Watch, Stretch, Upto, BytesOf, InStream;
    var t := Arrived(out, kept, cap, out[k].qos.cc);
    ArrivedAligned(out, kept, cap, out[k].qos.cc);
    FirstFits(out, k, cap);
    WatchAligned(out, t, out[k].qos.cc, NextIndex(kept), k, cap);
    WatchTruthful(out, t, k, cap);
    BytesOfStretch(out, k);
    OfferedBytes(out, t.d, k, cap);
    hide Offered, Joined;
  }

  /** The sound half, at the receiver and for streams of any length: four harmless streams, any of their batches lost,
      the rest interleaved in any way; everything queued is made of whole logged messages. */
  lemma HarmlessIsSound(outs: seq<seq<Batch>>, logs: seq<Log>, arrivals: seq<Arrival>, cap: nat)
    requires HarmlessStreams(outs, logs, cap) && InOrder(outs, arrivals) && arrivals != []
    ensures var a, p := Outcome(outs, arrivals, cap), arrivals[|arrivals| - 1].p;
            a.Queue? ==> MadeOf(a.item, p, logs[p])
  {
    var front, last := arrivals[..|arrivals| - 1], arrivals[|arrivals| - 1];
    var p, k := last.p, last.k;
    var b := outs[p][k];
    var a := Outcome(outs, arrivals, cap);
    ReceiveWire(Feed(outs, front, cap), b, cap);
    KeptOfOk(outs, front, p);
    hide Wire, RxSpec.Receive, Feed, Harmless, FirstsFit, Linked, Numbered, Arrived, Kept, MadeOf, Whole, NextOf,
        KeptOf;
    if b.FragBatch? {
      FeedIsArrived(outs, front, cap, p, b.qos.cc);
      FragmentDelivers(outs[p], KeptOf(front, p), k, cap);
    }
    if a.Queue? {
      assert Stream(outs[p], logs[p]);
      DeliversWhole(outs[p], k, a, p, logs[p]);
    }
  }

  /** For a sender's run the condition is exact, too, however many batches it commits. */
  lemma RunIsExact(bs: BatchSize, p: Priority, ops: seq<Op>, cap: nat)
    requires Roomy(RunOps(bs, p, ops).out, cap)
    ensures Intact(RunOps(bs, p, ops).out, cap) <==> Harmless(RunOps(bs, p, ops).out)
  {
    hide RunOps, LogOf, Linked, Numbered, Whole, Roomy, Intact, Harmless;
    RunSound(bs, p, ops);
    IntactIsHarmless(RunOps(bs, p, ops).out, cap);
  }
}
