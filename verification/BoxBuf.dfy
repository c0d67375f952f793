/** src/buffers/boxbuf.rs: a bounded byte buffer with marks. */
module BoxBuffer {
  import opened Base
  import Vle

  class BoxBuf {
    const buffer: array<byte>
    var len: nat

    ghost predicate Valid()
      reads this
    {
      len <= buffer.Length
    }

    ghost function Contents(): seq<byte>
      requires Valid()
      reads this, buffer
    {
      buffer[..len]
    }

    constructor (capacity: nat)
      ensures Valid() && fresh(buffer) && buffer.Length == capacity && len == 0
    {
      buffer := new byte[capacity];
      len := 0;
    }

    method Clear()
      modifies this
      ensures Valid() && len == 0 && Contents() == []
    {
      len := 0;
    }

    method Remaining() returns (n: nat)
      requires Valid()
      ensures n == buffer.Length - len
    {
      n := buffer.Length - len;
    }

    /** Writes what fits; false exactly when that is nothing. */
    method Write(bytes: seq<byte>) returns (ok: bool, n: nat)
      requires Valid()
      modifies this, buffer
      ensures Valid()
      ensures n == if |bytes| <= buffer.Length - old(len) then |bytes| else buffer.Length - old(len)
      ensures ok <==> n > 0
      ensures Contents() == old(Contents()) + bytes[..n]
    {
      n := if |bytes| <= buffer.Length - len then |bytes| else buffer.Length - len;
      forall i | 0 <= i < n {
        buffer[len + i] := bytes[i];
      }
      len := len + n;
      ok := n > 0;
    }

    /** All or nothing. */
    method WriteExact(bytes: seq<byte>) returns (ok: bool)
      requires Valid()
      modifies this, buffer
      ensures Valid()
      ensures ok <==> |bytes| <= buffer.Length - old(len)
      ensures Contents() == old(Contents()) + if ok then bytes else []
    {
      if buffer.Length - len < |bytes| {
        return false;
      }
      var _, n := Write(bytes);
      ok := true;
    }

    /** `with_slot` with the integer encoder as its closure: all or nothing. */
    method WriteVle(x: u64) returns (ok: bool)
      requires Valid()
      modifies this, buffer
      ensures Valid()
      ensures ok <==> |Vle.Encode(x)| <= buffer.Length - old(len)
      ensures Contents() == old(Contents()) + if ok then Vle.Encode(x) else []
    {
      hide Vle.Encode, Vle.VleLen;
      Vle.EncodeLength(x);
      if buffer.Length - len < Vle.VleLen(x) {
        return false;
      }
      var written := Vle.EncodeInto(buffer, len, x);
      assert buffer[len..len + written] == Vle.Encode(x);
      assert buffer[..len + written] == buffer[..len] + buffer[len..len + written];
      len := len + written;
      ok := true;
    }

    method Mark() returns (mark: nat)
      ensures mark == len
    {
      mark := len;
    }

    /** Forgets everything written after the mark. */
    method Rewind(mark: nat)
      requires Valid() && mark <= buffer.Length
      modifies this
      ensures Valid() && len == mark
      ensures mark <= old(len) ==> Contents() == old(Contents())[..mark]
    {
      len := mark;
    }
  }
}
