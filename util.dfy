/** The array helper shared by every codec (`copyArray` in src/util.js). */
module Util {
  import opened Bytes

  /**
   * `copyArray`, `Uint8Array` path: copies `length` bytes from `src[soffset..]` to
   * `dest[doffset..]`, one at a time and front to back. A read past the end of `src`
   * stores 0 and a write past the end of `dest` is dropped, as typed arrays do.
   * `dest` may be `null` only when nothing is copied (Package.decode relies on it).
   * When `src` and `dest` are the same array, the copy may only move bytes left.
   */
  method CopyArray(dest: array?<byte>, doffset: nat, src: array<byte>, soffset: nat, length: nat)
    requires dest == null ==> length == 0
    requires dest == src ==> doffset <= soffset
    modifies dest
    ensures dest != null ==> forall i :: doffset <= i < doffset + length && i < dest.Length ==>
      dest[i] == ByteAt(old(src[..]), soffset + (i - doffset))
    ensures dest != null ==> forall i :: 0 <= i < dest.Length && !(doffset <= i < doffset + length) ==>
      dest[i] == old(dest[i])
    ensures src != dest ==> src[..] == old(src[..])
    ensures length == 0 && dest != null ==> dest[..] == old(dest[..])
  {
    var index := 0;
    while index < length
      invariant 0 <= index <= length
      invariant dest != null || length == 0
      invariant dest != null ==> forall i :: doffset <= i < doffset + index && i < dest.Length ==>
        dest[i] == ByteAt(old(src[..]), soffset + (i - doffset))
      invariant dest != null ==> forall i :: 0 <= i < dest.Length && !(doffset <= i < doffset + index) ==>
        dest[i] == old(dest[i])
      invariant src != dest ==> src[..] == old(src[..])
    {
      var b := if soffset + index < src.Length then src[soffset + index] else 0;
      assert b == ByteAt(old(src[..]), soffset + index);
      if doffset + index < dest.Length {
        dest[doffset + index] := b;
      }
      index := index + 1;
    }
  }
}
