/** src/codec/core/vle.rs: little-endian base-128 integers capped at nine bytes. */
module Vle {
  import opened Base

  const VLE_LEN_MAX: nat := 9

  /** Number of bytes of the encoding, by the nine thresholds of the source. */
  function VleLen(x: u64): (n: nat)
    ensures 1 <= n <= VLE_LEN_MAX
  {
    if x < 0x80 then 1
    else if x < 0x4000 then 2
    else if x < 0x20_0000 then 3
    else if x < 0x1000_0000 then 4
    else if x < 0x8_0000_0000 then 5
    else if x < 0x400_0000_0000 then 6
    else if x < 0x2_0000_0000_0000 then 7
    else if x < 0x100_0000_0000_0000 then 8
    else 9
  }

  /** Weight of byte k: the shift by 7k bits. */
  function Pow128(k: nat): (r: nat)
    ensures r >= 1
  {
    if k == 0 then 1 else 128 * Pow128(k - 1)
  }

  /** x still fits when k bytes are already out: the ninth byte carries 8 bits. */
  predicate FitsIn(x: nat, k: nat)
  {
    k <= 8 && x < 256 * Pow128(8 - k)
  }

  function EncFrom(x: nat, k: nat): (s: seq<byte>)
    requires FitsIn(x, k)
    decreases 8 - k
  {
    if k == 8 then [x]
    else if x < 128 then [x]
    else [128 + x % 128] + EncFrom(x / 128, k + 1)
  }

  lemma Pow128Values()
    ensures Pow128(1) == 0x80 && Pow128(2) == 0x4000 && Pow128(3) == 0x20_0000 && Pow128(4) == 0x1000_0000
    ensures Pow128(5) == 0x8_0000_0000 && Pow128(6) == 0x400_0000_0000 && Pow128(7) == 0x2_0000_0000_0000
    ensures Pow128(8) == 0x100_0000_0000_0000
  {
    assert Pow128(1) == 128 * Pow128(0);
    assert Pow128(2) == 128 * Pow128(1);
    assert Pow128(3) == 128 * Pow128(2);
    assert Pow128(4) == 128 * Pow128(3);
    assert Pow128(5) == 128 * Pow128(4);
    assert Pow128(6) == 128 * Pow128(5);
    assert Pow128(7) == 128 * Pow128(6);
    assert Pow128(8) == 128 * Pow128(7);
  }

  lemma U64Fits(x: u64)
    ensures FitsIn(x, 0)
  {
    Pow128Values();
  }

  /** The bytes the encoder writes. */
  function Encode(x: u64): (s: seq<byte>)
  {
    U64Fits(x);
    EncFrom(x, 0)
  }

  /** The reader loop on the bytes from position k of the encoding on: value and bytes consumed. */
  function DecFrom(s: seq<byte>, k: nat): (r: Option<(nat, nat)>)
    requires k <= 8
    ensures r.Some? ==> 1 <= r.value.1 <= |s| && r.value.1 <= 9 - k
    ensures r.Some? ==> FitsIn(r.value.0, k)
    decreases 8 - k
  {
    if s == [] then None
    else if s[0] >= 128 && k != 8 then
      match DecFrom(s[1..], k + 1)
      case None => None
      case Some((v, n)) => Some((s[0] - 128 + 128 * v, n + 1))
    else Some((s[0], 1))
  }

  /** DecFrom, unrolled once. */
  lemma DecUnfold(s: seq<byte>, k: nat)
    requires k < 8 && s != [] && s[0] >= 128
    ensures DecFrom(s, k) ==
            match DecFrom(s[1..], k + 1)
            case None => None
            case Some((v, n)) => Some((s[0] - 128 + 128 * v, n + 1))
  {}

  function Decode(s: seq<byte>): (r: Option<(u64, nat)>)
    ensures r.Some? ==> 1 <= r.value.1 <= |s| && r.value.1 <= 9
  {
    Pow128Values();
    match DecFrom(s, 0)
    case None => None
    case Some((v, n)) => Some((v, n))
  }

  lemma {:induction false} DecEnc(x: nat, k: nat, rest: seq<byte>)
    requires FitsIn(x, k)
    ensures DecFrom(EncFrom(x, k) + rest, k) == Some((x, |EncFrom(x, k)|))
    decreases 8 - k
  {
    if k < 8 && x >= 128 {
      Pow128Step(8 - k);
      var b: byte, tail := 128 + x % 128, EncFrom(x / 128, k + 1);
      var s := EncFrom(x, k) + rest;
      assert s[0] == b && s[1..] == tail + rest;
      DecEnc(x / 128, k + 1, rest);
      assert DecFrom(s, k) == Some((b - 128 + 128 * (x / 128), |tail| + 1));
    }
  }

  /** Round trip on every u64, with any bytes following the encoding. */
  lemma RoundTrip(x: u64, rest: seq<byte>)
    ensures Decode(Encode(x) + rest) == Some((x, |Encode(x)|))
  {
    U64Fits(x);
    DecEnc(x, 0, rest);
  }

  lemma {:induction false} EncFromLen(x: nat, k: nat)
    requires FitsIn(x, k)
    ensures |EncFrom(x, k)| <= 9 - k
    ensures forall n: nat :: 1 <= n <= 8 - k && x < Pow128(n) ==> |EncFrom(x, k)| <= n
    ensures forall n: nat :: 1 <= n <= 8 - k && x >= Pow128(n) ==> |EncFrom(x, k)| > n
    decreases 8 - k
  {
    if k < 8 && x >= 128 {
      EncFromLen(x / 128, k + 1);
      forall n: nat | 1 <= n <= 8 - k
        ensures x < Pow128(n) ==> |EncFrom(x, k)| <= n
        ensures x >= Pow128(n) ==> |EncFrom(x, k)| > n
      {
        assert Pow128(n) == 128 * Pow128(n - 1);
        if n == 1 { assert Pow128(0) == 1; }
      }
    } else {
      forall n: nat | 1 <= n <= 8 - k
        ensures x >= Pow128(n) ==> |EncFrom(x, k)| > n
      {
        assert Pow128(n) == 128 * Pow128(n - 1);
      }
    }
  }

  /** The length announced to `with_slot` is the length written: 1 to 9 bytes. */
  lemma EncodeLength(x: u64)
    ensures |Encode(x)| == VleLen(x)
  {
    U64Fits(x);
    Pow128Values();
    EncFromLen(x, 0);
  }

  /** Only the ninth byte may use all eight bits: each earlier byte has its top bit set exactly
      when another byte follows. */
  lemma {:induction false} ContinuationBits(x: nat, k: nat, i: nat)
    requires FitsIn(x, k) && i < |EncFrom(x, k)|
    ensures k + i < 8 ==> (EncFrom(x, k)[i] >= 128 <==> i + 1 < |EncFrom(x, k)|)
    ensures k + i <= 8
    decreases 8 - k
  {
    if k < 8 && x >= 128 && i > 0 {
      ContinuationBits(x / 128, k + 1, i - 1);
    }
  }

  lemma {:induction false} Pow128Step(k: nat)
    requires 1 <= k
    ensures Pow128(k) == 128 * Pow128(k - 1)
  {}

  /** x shifted right by 7k bits. */
  function Shr7(x: nat, k: nat): nat
  {
    if k == 0 then x else Shr7(x, k - 1) / 128
  }

  lemma ShrStep(x: nat, k: nat)
    ensures Shr7(x, 0) == x && Shr7(x, k + 1) == Shr7(x, k) / 128
  {}

  lemma {:induction false} ShrFront(x: nat, k: nat)
    ensures Shr7(x / 128, k) == Shr7(x, k + 1)
  {
    if k > 0 {
      ShrFront(x, k - 1);
    }
  }

  lemma {:induction false} EncFromAt(x: nat, k: nat, i: nat)
    requires FitsIn(x, k) && i < |EncFrom(x, k)|
    ensures k + i <= 8 && Shr7(x, i) < 256 * Pow128(8 - k - i)
    ensures EncFrom(x, k)[i] == if Shr7(x, i) >= 128 then Shr7(x, i) % 128 + 128 else Shr7(x, i)
    ensures i + 1 < |EncFrom(x, k)| <==> Shr7(x, i) >= 128 && k + i < 8
    decreases 8 - k
  {
    hide EncFrom, Pow128;
    EncUnfold(x, k);
    if i > 0 {
      EncFromAt(x / 128, k + 1, i - 1);
      ShrFront(x, i - 1);
    } else {
      assert Shr7(x, 0) == x;
    }
  }

  /** EncFrom, unrolled once. */
  lemma EncUnfold(x: nat, k: nat)
    requires FitsIn(x, k)
    ensures k == 8 || x < 128 ==> EncFrom(x, k) == [x]
    ensures k < 8 && x >= 128 ==> FitsIn(x / 128, k + 1) && EncFrom(x, k) == [128 + x % 128] + EncFrom(x / 128, k + 1)
    ensures k < 8 && x >= 128 ==> 1 <= |EncFrom(x / 128, k + 1)|
  {
    if k < 8 {
      Pow128Step(8 - k);
    }
  }

  /** Byte i holds bits 7i to 7i + 6 of x, topped by the continuation bit; the ninth holds all its last eight. */
  lemma EncodeAt(x: u64, i: nat)
    requires i < |Encode(x)|
    ensures Encode(x)[i] == if Shr7(x, i) >= 128 then Shr7(x, i) % 128 + 128 else Shr7(x, i)
    ensures i + 1 < |Encode(x)| <==> Shr7(x, i) >= 128 && i < 8
    ensures i == 8 ==> Shr7(x, i) < 256
  {
    U64Fits(x);
    EncFromAt(x, 0, i);
    assert Pow128(0) == 1;
  }

  /** The write closure: it fills the slot [at, at + VleLen(x0)) and nothing else. */
  method EncodeInto(buffer: array<byte>, at: nat, x0: u64) returns (len: nat)
    requires at + VleLen(x0) <= buffer.Length
    modifies buffer
    ensures len == VleLen(x0)
    ensures len == |Encode(x0)| && forall i :: 0 <= i < len ==> buffer[at + i] == Encode(x0)[i]
    ensures forall i :: 0 <= i < at || at + len <= i < buffer.Length ==> buffer[i] == old(buffer[i])
  {
    hide EncFrom, Encode, VleLen, Shr7;
    var x: nat := x0;
    len := 0;
    ghost var enc := Encode(x0);
    EncodeLength(x0);
    ShrStep(x0, 0);
    while x >= 0x80
      invariant 0 <= len <= |enc| && x == Shr7(x0, len)
      invariant len == |enc| ==> len == 9 && x < 0x80
      invariant forall i :: 0 <= i < len ==> buffer[at + i] == enc[i]
      invariant forall i :: 0 <= i < at || at + |enc| <= i < buffer.Length ==> buffer[i] == old(buffer[i])
      decreases 9 - len
    {
      EncodeAt(x0, len);
      ShrStep(x0, len);
      buffer[at + len] := x % 128 + 128;
      len := len + 1;
      x := x / 128;
    }
    if len != VLE_LEN_MAX {
      EncodeAt(x0, len);
      buffer[at + len] := x;
      len := len + 1;
    }
  }
}
