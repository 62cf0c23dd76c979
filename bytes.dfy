/** Bytes as held in a `Uint8Array`, and the way the source reads past the end of one. */
module Bytes {

  /** One element of a `Uint8Array`. */
  type byte = b: int | 0 <= b < 256

  /**
   * The byte a `Uint8Array` read at index `i` contributes to the source's arithmetic.
   * Past the end the read yields `undefined`, which every bit operation and every
   * store into a `Uint8Array` turns into 0.
   */
  function ByteAt(s: seq<byte>, i: int): (b: byte)
    ensures 0 <= i < |s| ==> b == s[i]
    ensures !(0 <= i < |s|) ==> b == 0
  {
    if 0 <= i < |s| then s[i] else 0
  }

  /** `ByteAt` on the current contents of an array. */
  function Read(a: array<byte>, i: int): (b: byte)
    reads a
    ensures b == ByteAt(a[..], i)
  {
    if 0 <= i < a.Length then a[i] else 0
  }

  /** `len` bytes of `s` from `start` on, zero-filled past the end of `s`. */
  function ZeroFilled(s: seq<byte>, start: int, len: nat): (r: seq<byte>)
    ensures |r| == len
    ensures forall k :: 0 <= k < len ==> r[k] == ByteAt(s, start + k)
  {
    var r := seq<byte>(len, k requires 0 <= k < len => ByteAt(s, start + k));
    r
  }

  /** Reading zero-filled bytes from inside `s` is plain slicing. */
  lemma ZeroFilledInside(s: seq<byte>, start: nat, len: nat)
    requires start + len <= |s|
    ensures ZeroFilled(s, start, len) == s[start..start + len]
  {
  }

  /** Reads from a suffix `q` of `p + q` see only `q`, zero-filled past its end. */
  lemma ByteAtSuffix(p: seq<byte>, q: seq<byte>, j: nat)
    ensures ByteAt(p + q, |p| + j) == ByteAt(q, j)
  {
  }

  /** Zero-filled slices of a suffix `q` of `p + q` see only `q`. */
  lemma ZeroFilledSuffix(p: seq<byte>, q: seq<byte>, k: nat, len: nat)
    ensures ZeroFilled(p + q, |p| + k, len) == ZeroFilled(q, k, len)
  {
    forall j | 0 <= j < len
      ensures ZeroFilled(p + q, |p| + k, len)[j] == ZeroFilled(q, k, len)[j]
    {
      ByteAtSuffix(p, q, k + j);
    }
  }

  /** Reads are unaffected by what surrounds the bytes being read. */
  lemma ByteAtShift(p: seq<byte>, q: seq<byte>, r: seq<byte>, i: nat)
    requires i < |q|
    ensures ByteAt(p + q + r, |p| + i) == q[i]
  {
  }
}
