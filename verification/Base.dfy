/** Machine integers, options and the few sequence facts every other module uses. */
module Base {

  type byte = x: int | 0 <= x < 256
  const TWO64: nat := 0x1_0000_0000_0000_0000
  type u64 = x: int | 0 <= x < TWO64

  /** 0 is High, 3 is Background. */
  type Priority = p: nat | p < 4

  datatype Option<+T> = None | Some(value: T)

  /** Concatenation of a list of byte strings. */
  function Flat(cs: seq<seq<byte>>): (s: seq<byte>)
  {
    if cs == [] then [] else cs[0] + Flat(cs[1..])
  }

  lemma {:induction false} FlatAppend(a: seq<seq<byte>>, b: seq<seq<byte>>)
    ensures Flat(a + b) == Flat(a) + Flat(b)
  {
    if a == [] {
      assert a + b == b;
    } else {
      assert (a + b)[1..] == a[1..] + b;
      FlatAppend(a[1..], b);
    }
  }

  lemma FlatPrefix(cs: seq<seq<byte>>, k: nat)
    requires k <= |cs|
    ensures Flat(cs) == Flat(cs[..k]) + Flat(cs[k..])
  {
    assert cs == cs[..k] + cs[k..];
    FlatAppend(cs[..k], cs[k..]);
  }

  /** Splitting at chunk k: everything before it, the chunk, everything after. */
  lemma FlatSplit(cs: seq<seq<byte>>, k: nat)
    requires k < |cs|
    ensures Flat(cs[..k + 1]) == Flat(cs[..k]) + cs[k]
    ensures Flat(cs[k..]) == cs[k] + Flat(cs[k + 1..])
  {
    assert cs[..k + 1] == cs[..k] + [cs[k]];
    FlatPush(cs[..k], cs[k]);
    assert cs[k..][1..] == cs[k + 1..];
  }

  lemma FlatPush(cs: seq<seq<byte>>, c: seq<byte>)
    ensures Flat(cs + [c]) == Flat(cs) + c
  {
    FlatAppend(cs, [c]);
    assert Flat([c]) == c;
  }
}
