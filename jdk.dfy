/** The parts of the Java platform that the puzzle builder relies on, with the
    behaviour the Java SE documentation gives them: `java.util.Arrays.fill` over
    a range, an in-memory `java.io.ByteArrayOutputStream`, and the encoded form
    of a `javax.crypto.SecretKey`. A Java `byte` is a `bv8`. */
module Jdk {
  import opened Wrappers

  /** The exceptions that can end a puzzle's construction. The two array
      exceptions are thrown by `Arrays.fill`; anything a collaborator whose
      code is not modelled throws is carried, unchanged, as `Raised`. */
  datatype Exception =
    | IllegalArgumentException(fromIndex: int, toIndex: int)
    | ArrayIndexOutOfBoundsException(index: int)
    | Raised(name: string)

  /** The argument check `Arrays.fill(a, fromIndex, toIndex, val)` makes before
      it writes anything: an inverted range is an illegal argument, and a range
      that leaves the array is an out-of-bounds access at the offending end. */
  function RangeCheck(length: nat, fromIndex: int, toIndex: int): (r: Outcome<Exception>)
    ensures r.Pass? <==> 0 <= fromIndex <= toIndex <= length
    ensures fromIndex > toIndex ==> r == Fail(IllegalArgumentException(fromIndex, toIndex))
    ensures fromIndex <= toIndex && fromIndex < 0 ==> r == Fail(ArrayIndexOutOfBoundsException(fromIndex))
    ensures 0 <= fromIndex <= toIndex && toIndex > length ==> r == Fail(ArrayIndexOutOfBoundsException(toIndex))
  {
    if fromIndex > toIndex then Fail(IllegalArgumentException(fromIndex, toIndex))
    else if fromIndex < 0 then Fail(ArrayIndexOutOfBoundsException(fromIndex))
    else if toIndex > length then Fail(ArrayIndexOutOfBoundsException(toIndex))
    else Pass
  }

  /** The contents of a byte array after a successful `Arrays.fill` of the
      range [fromIndex, toIndex) with `val`: that range holds `val`, every other
      byte is what it was, and the length does not change. */
  function FillRange(s: seq<bv8>, fromIndex: nat, toIndex: nat, val: bv8): (r: seq<bv8>)
    requires fromIndex <= toIndex <= |s|
    ensures |r| == |s|
    ensures forall k :: fromIndex <= k < toIndex ==> r[k] == val
    ensures forall k :: 0 <= k < |s| && !(fromIndex <= k < toIndex) ==> r[k] == s[k]
  {
    s[..fromIndex] + seq(toIndex - fromIndex, _ => val) + s[toIndex..]
  }

  /** `Arrays.fill(a, fromIndex, toIndex, val)`, in place. When the range check
      fails the exception is returned and the array is left untouched. */
  method Fill(a: array<bv8>, fromIndex: int, toIndex: int, val: bv8) returns (outcome: Outcome<Exception>)
    modifies a
    ensures outcome == RangeCheck(a.Length, fromIndex, toIndex)
    ensures outcome.Pass? ==> a[..] == FillRange(old(a[..]), fromIndex, toIndex, val)
    ensures outcome.Fail? ==> a[..] == old(a[..])
  {
    outcome := RangeCheck(a.Length, fromIndex, toIndex);
    if outcome.Fail? {
      return;
    }
    var i := fromIndex;
    while i < toIndex
      invariant fromIndex <= i <= toIndex
      invariant forall k :: 0 <= k < a.Length ==> a[k] == if fromIndex <= k < i then val else old(a[k])
    {
      a[i] := val;
      i := i + 1;
    }
    ghost var filled := FillRange(old(a[..]), fromIndex, toIndex, val);
    assert forall k :: 0 <= k < a.Length ==> a[..][k] == filled[k];
  }

  /** An in-memory output stream: its buffer grows by every write, and
      `toByteArray` hands back what has been written so far. */
  class ByteArrayOutputStream {
    var buf: seq<bv8>

    constructor ()
      ensures buf == []
    {
      buf := [];
    }

    /** `write(byte[] b)`: appends all of `b`. An in-memory stream never
        throws the declared `IOException`. */
    method Write(b: seq<bv8>)
      modifies this
      ensures buf == old(buf) + b
    {
      buf := buf + b;
    }

    /** `toByteArray()`: everything written so far, in the order written. */
    function ToByteArray(): (r: seq<bv8>)
      reads this
      ensures r == buf
    {
      buf
    }
  }

  /** A secret key is modelled by its encoded bytes. */
  datatype SecretKey = SecretKey(encoded: seq<bv8>)

  /** `SecretKey.getEncoded()`: the key's bytes in a new array, so writing to
      the array does not change the key. */
  method GetEncoded(key: SecretKey) returns (a: array<bv8>)
    ensures fresh(a)
    ensures a[..] == key.encoded
  {
    a := new bv8[|key.encoded|](i requires 0 <= i < |key.encoded| => key.encoded[i]);
  }
}
