/**
 * The text codec of src/Protocal.js. `strencode` writes each UTF-16 code unit of a
 * string in the one-, two- or three-byte form of UTF-8 (section 3 of RFC 3629), unit
 * by unit, so a surrogate pair becomes two three-byte groups (as CESU-8 does).
 * `strdecode` classifies each lead byte, rebuilds one code point per group (it also
 * knows a four-byte group, which `strencode` never writes) and turns the code points
 * into a string with `String.fromCodePoint`, 8192 code points at a time.
 */
module Protocol {
  import opened Wrappers
  import opened Bytes
  import opened Util

  /** A JavaScript string element: one UTF-16 code unit. */
  type CodeUnit = c: int | 0 <= c < 0x1_0000

  /** Code points handed to `String.fromCodePoint` per call. */
  const CHUNK: nat := 8 * 1024

  // ---------------------------------------------------------------- encoding

  /** Bytes `strencode` writes for one code unit: 1, 2 or 3. */
  function Width(c: CodeUnit): (w: nat)
    ensures 1 <= w <= 3
  {
    if c <= 0x7F then 1 else if c <= 0x7FF then 2 else 3
  }

  /**
   * The bytes `strencode` writes for one code unit. The lead byte tells the decoder
   * the width of the group, and every other byte is a continuation byte 0x80..0xBF.
   */
  function UnitBytes(c: CodeUnit): (r: seq<byte>)
    ensures |r| == Width(c)
    ensures r[0] < 128 <==> c <= 0x7F
    ensures c <= 0x7F ==> r[0] == c
    ensures 0x80 <= c <= 0x7FF <==> 192 <= r[0] < 224
    ensures 0x800 <= c <==> 224 <= r[0] < 240
    ensures forall j :: 1 <= j < |r| ==> 128 <= r[j] < 192
  {
    if c <= 0x7F then [c]
    else if c <= 0x7FF then [0xC0 + c / 64, 0x80 + c % 64]
    else [0xE0 + c / 4096, 0x80 + (c / 64) % 64, 0x80 + c % 64]
  }

  /** Sum of the per-unit widths of `s`. */
  function TotalWidth(s: seq<CodeUnit>): (n: nat)
    ensures |s| <= n <= 3 * |s|
  {
    if s == [] then 0 else Width(s[0]) + TotalWidth(s[1..])
  }

  /** The bytes of `strencode(s)`: the groups of its code units, in order. */
  function EncodeUnits(s: seq<CodeUnit>): (r: seq<byte>)
    ensures |r| == TotalWidth(s)
    ensures |s| <= |r| <= 3 * |s|
  {
    if s == [] then [] else UnitBytes(s[0]) + EncodeUnits(s[1..])
  }

  lemma {:induction false} EncodeUnitsAppend(a: seq<CodeUnit>, b: seq<CodeUnit>)
    ensures EncodeUnits(a + b) == EncodeUnits(a) + EncodeUnits(b)
  {
    if a == [] {
      assert a + b == b;
    } else {
      assert (a + b)[1..] == a[1..] + b;
      EncodeUnitsAppend(a[1..], b);
    }
  }

  lemma EncodeUnitsSnoc(s: seq<CodeUnit>, i: nat)
    requires i < |s|
    ensures EncodeUnits(s[..i + 1]) == EncodeUnits(s[..i]) + UnitBytes(s[i])
  {
    assert s[..i + 1] == s[..i] + [s[i]];
    EncodeUnitsAppend(s[..i], [s[i]]);
    assert EncodeUnits([s[i]]) == UnitBytes(s[i]) + EncodeUnits([]);
  }

  /**
   * `strencode`: fills a buffer of 3 bytes per code unit through an `offset` counter,
   * then copies the used prefix into a buffer of exactly that size.
   */
  method StrEncode(str: seq<CodeUnit>) returns (r: array<byte>)
    ensures fresh(r)
    ensures r[..] == EncodeUnits(str)
  {
    var buffer := new byte[|str| * 3];
    var offset := 0;
    for i := 0 to |str|
      invariant offset == |EncodeUnits(str[..i])| <= 3 * i
      invariant buffer[..offset] == EncodeUnits(str[..i])
    {
      var codes := UnitBytes(str[i]);
      EncodeUnitsSnoc(str, i);
      offset := PutCodes(buffer, offset, codes);
    }
    assert str[..|str|] == str;
    r := new byte[offset];
    CopyArray(r, 0, buffer, 0, offset);
    assert r[..] == buffer[..offset];
  }

  /** The inner loop of `strencode`: stores `codes` at `offset` and returns the new offset. */
  method PutCodes(buffer: array<byte>, offset: nat, codes: seq<byte>) returns (next: nat)
    requires offset + |codes| <= buffer.Length
    modifies buffer
    ensures next == offset + |codes|
    ensures buffer[..next] == old(buffer[..offset]) + codes
    ensures buffer[next..] == old(buffer[next..])
  {
    next := offset;
    for j := 0 to |codes|
      invariant next == offset + j
      invariant buffer[..next] == old(buffer[..offset]) + codes[..j]
      invariant buffer[offset + |codes|..] == old(buffer[offset + |codes|..])
    {
      buffer[next] := codes[j];
      next := next + 1;
      assert codes[..j + 1] == codes[..j] + [codes[j]];
    }
    assert codes[..|codes|] == codes;
  }

  // ---------------------------------------------------------------- decoding

  /** Bytes `strdecode` consumes for a group with lead byte `lead`. */
  function GroupWidth(lead: byte): (w: nat)
    ensures 1 <= w <= 4
  {
    if lead < 128 then 1 else if lead < 224 then 2 else if lead < 240 then 3 else 4
  }

  /** The code point `strdecode` builds from the group at `pos` (bytes past the end read as 0). */
  function PointAt(b: seq<byte>, pos: nat): (cp: nat)
    requires pos < |b|
    ensures cp < 0x20_0000
  {
    var b0 := b[pos];
    if b0 < 128 then
      b0
    else if b0 < 224 then
      (b0 % 64) * 64 + ByteAt(b, pos + 1) % 64
    else if b0 < 240 then
      (b0 % 16) * 4096 + (ByteAt(b, pos + 1) % 64) * 64 + ByteAt(b, pos + 2) % 64
    else
      (b0 % 8) * 0x4_0000 + (ByteAt(b, pos + 1) % 64) * 4096
      + (ByteAt(b, pos + 2) % 64) * 64 + ByteAt(b, pos + 3) % 64
  }

  /** The code points `strdecode` collects from offset `pos` on: one per group. */
  function PointsFrom(b: seq<byte>, pos: nat): (r: seq<nat>)
    ensures pos <= |b| ==> |r| <= |b| - pos
    decreases |b| - pos
  {
    if pos >= |b| then [] else [PointAt(b, pos)] + PointsFrom(b, pos + GroupWidth(b[pos]))
  }

  /** One step of `PointsFrom`: the group at `pos`, then the rest. */
  lemma PointsFromStep(b: seq<byte>, pos: nat, points: seq<nat>)
    requires pos < |b|
    ensures points + PointsFrom(b, pos)
      == (points + [PointAt(b, pos)]) + PointsFrom(b, pos + GroupWidth(b[pos]))
  {
  }

  /** The code points of a whole buffer. */
  function Points(b: seq<byte>): (r: seq<nat>)
    ensures |r| <= |b|
  {
    PointsFrom(b, 0)
  }

  /**
   * `String.fromCodePoint` on one code point: itself below 0x10000, a surrogate pair
   * up to 0x10FFFF, and a RangeError (None) above.
   */
  function PointUnits(cp: nat): (r: Option<seq<CodeUnit>>)
    ensures r.Some? <==> cp <= 0x10_FFFF
    ensures cp <= 0xFFFF ==> r == Some([cp])
    ensures r.Some? && cp > 0xFFFF ==>
      |r.value| == 2 && 0xD800 <= r.value[0] < 0xDC00 <= r.value[1] < 0xE000
  {
    if cp <= 0xFFFF then Some([cp])
    else if cp <= 0x10_FFFF then Some([0xD800 + (cp - 0x1_0000) / 1024, 0xDC00 + (cp - 0x1_0000) % 1024])
    else None
  }

  /** Concatenating two strings that `String.fromCodePoint` built, failing if either failed. */
  function Join(a: Option<seq<CodeUnit>>, b: Option<seq<CodeUnit>>): (r: Option<seq<CodeUnit>>)
    ensures r.Some? <==> a.Some? && b.Some?
  {
    if a.Some? && b.Some? then Some(a.value + b.value) else None
  }

  lemma JoinAssoc(r: seq<CodeUnit>, a: Option<seq<CodeUnit>>, b: Option<seq<CodeUnit>>)
    ensures Join(Some(r), Join(a, b)) == Join(Join(Some(r), a), b)
  {
    if a.Some? && b.Some? {
      assert r + (a.value + b.value) == (r + a.value) + b.value;
    }
  }

  /** `String.fromCodePoint(...cps)`: the string, or None where it throws a RangeError. */
  function FromCodePoints(cps: seq<nat>): (r: Option<seq<CodeUnit>>)
    ensures r.Some? <==> forall i :: 0 <= i < |cps| ==> cps[i] <= 0x10_FFFF
    ensures r.Some? ==> |cps| <= |r.value| <= 2 * |cps|
  {
    if cps == [] then Some([]) else Join(PointUnits(cps[0]), FromCodePoints(cps[1..]))
  }

  /** Converting code points in two runs and joining the strings is converting them at once. */
  lemma {:induction false} FromCodePointsAppend(a: seq<nat>, b: seq<nat>)
    ensures FromCodePoints(a + b) == Join(FromCodePoints(a), FromCodePoints(b))
  {
    if a == [] {
      assert a + b == b;
      if FromCodePoints(b).Some? {
        assert [] + FromCodePoints(b).value == FromCodePoints(b).value;
      }
    } else {
      assert (a + b)[0] == a[0];
      assert (a + b)[1..] == a[1..] + b;
      FromCodePointsAppend(a[1..], b);
      var h, t, u := PointUnits(a[0]), FromCodePoints(a[1..]), FromCodePoints(b);
      if h.Some? && t.Some? && u.Some? {
        assert h.value + (t.value + u.value) == (h.value + t.value) + u.value;
      }
    }
  }

  /** Code points that are code units convert to themselves. */
  lemma {:induction false} FromCodeUnits(s: seq<CodeUnit>)
    ensures FromCodePoints(s) == Some(s)
  {
    if s != [] {
      FromCodeUnits(s[1..]);
      assert [s[0]] + s[1..] == s;
    }
  }

  /** The string `strdecode` returns for the bytes `b`, or None where it throws. */
  function DecodeText(b: seq<byte>): Option<seq<CodeUnit>>
  {
    FromCodePoints(Points(b))
  }

  /**
   * `strdecode`: copies the input into a fresh `Uint8Array`, collects the code points
   * of its groups, then converts them to a string 8192 at a time.
   */
  method StrDecode(buffer: seq<byte>) returns (r: Option<seq<CodeUnit>>)
    ensures r == DecodeText(buffer)
  {
    var bytes := new byte[|buffer|](i requires 0 <= i < |buffer| => buffer[i]);
    assert bytes[..] == buffer;
    var points := CollectPoints(bytes);
    r := FromCodePointChunks(points);
  }

  /** The `while (offset < end)` loop of `strdecode`: one code point per group. */
  method CollectPoints(bytes: array<byte>) returns (points: seq<nat>)
    ensures points == Points(bytes[..])
  {
    ghost var b := bytes[..];
    points := [];
    var offset := 0;
    var end := bytes.Length;
    while offset < end
      invariant points + PointsFrom(b, offset) == Points(b)
      decreases end - offset
    {
      var charCode: nat;
      var b0 := bytes[offset];
      ghost var pos := offset;
      if b0 < 128 {
        charCode := b0;
        offset := offset + 1;
      } else if b0 < 224 {
        charCode := (b0 % 64) * 64 + Read(bytes, offset + 1) % 64;
        offset := offset + 2;
      } else if b0 < 240 {
        charCode := (b0 % 16) * 4096 + (Read(bytes, offset + 1) % 64) * 64 + Read(bytes, offset + 2) % 64;
        offset := offset + 3;
      } else {
        charCode := (b0 % 8) * 0x4_0000 + (Read(bytes, offset + 1) % 64) * 4096
          + (Read(bytes, offset + 2) % 64) * 64 + Read(bytes, offset + 3) % 64;
        offset := offset + 4;
      }
      assert charCode == PointAt(b, pos) && offset == pos + GroupWidth(b[pos]);
      PointsFromStep(b, pos, points);
      points := points + [charCode];
    }
  }

  /**
   * The assembly loop of `strdecode`: `String.fromCodePoint` on each slice of 8192 code
   * points, concatenated, then on the (empty) slice after the last one.
   */
  method FromCodePointChunks(points: seq<nat>) returns (r: Option<seq<CodeUnit>>)
    ensures r == FromCodePoints(points)
  {
    var result: seq<CodeUnit> := [];
    var i := 0;
    assert points[Min(0, |points|)..] == points;
    if FromCodePoints(points).Some? {
      assert [] + FromCodePoints(points).value == FromCodePoints(points).value;
    }
    // `i < array.length / chunk` over the reals is `i * chunk < array.length`
    while i * CHUNK < |points|
      invariant i * CHUNK <= |points| + CHUNK
      invariant Join(Some(result), FromCodePoints(points[Min(i * CHUNK, |points|)..])) == FromCodePoints(points)
      decreases |points| - i * CHUNK
    {
      var lo, hi := i * CHUNK, Min((i + 1) * CHUNK, |points|);
      assert points[lo..] == points[lo..hi] + points[hi..];
      FromCodePointsAppend(points[lo..hi], points[hi..]);
      var piece := FromCodePoints(points[lo..hi]);
      JoinAssoc(result, piece, FromCodePoints(points[hi..]));
      if piece.None? {
        return None;
      }
      result := result + piece.value;
      i := i + 1;
      assert Min(i * CHUNK, |points|) == hi;
    }
    var last := FromCodePoints(points[Min(i * CHUNK, |points|)..]);
    assert points[Min(i * CHUNK, |points|)..] == [];
    r := Some(result + last.value);
    assert result + [] == result;
  }

  function Min(a: int, b: int): int
  {
    if a <= b then a else b
  }

  // ---------------------------------------------------------------- properties

  lemma TwoByteArith(c: int)
    requires 0x80 <= c <= 0x7FF
    ensures ((0xC0 + c / 64) % 64) * 64 + (0x80 + c % 64) % 64 == c
  {
    assert (0xC0 + c / 64) % 64 == c / 64;
    assert (0x80 + c % 64) % 64 == c % 64;
  }

  lemma ThreeByteArith(c: int)
    requires 0x800 <= c <= 0xFFFF
    ensures ((0xE0 + c / 4096) % 16) * 4096 + ((0x80 + (c / 64) % 64) % 64) * 64 + (0x80 + c % 64) % 64 == c
  {
    assert (0xE0 + c / 4096) % 16 == c / 4096;
    assert (0x80 + (c / 64) % 64) % 64 == (c / 64) % 64;
    assert (0x80 + c % 64) % 64 == c % 64;
    assert c / 64 / 64 == c / 4096;
    assert c / 64 == (c / 4096) * 64 + (c / 64) % 64;
  }

  /** `strdecode` reads one group back as the code unit it was written from. */
  lemma UnitRoundTrip(c: CodeUnit, pre: seq<byte>, post: seq<byte>)
    ensures GroupWidth(UnitBytes(c)[0]) == Width(c)
    ensures PointAt(pre + UnitBytes(c) + post, |pre|) == c
  {
    var u := UnitBytes(c);
    var b := pre + u + post;
    ByteAtShift(pre, u, post, 0);
    if c <= 0x7F {
    } else if c <= 0x7FF {
      ByteAtShift(pre, u, post, 1);
      TwoByteArith(c);
    } else {
      ByteAtShift(pre, u, post, 1);
      ByteAtShift(pre, u, post, 2);
      ThreeByteArith(c);
    }
  }

  /** Decoding from the end of `pre` reads exactly the code units encoded after it. */
  lemma {:induction false} PointsOfEncoded(pre: seq<byte>, s: seq<CodeUnit>)
    ensures PointsFrom(pre + EncodeUnits(s), |pre|) == s
    decreases |s|
  {
    var b := pre + EncodeUnits(s);
    if s != [] {
      var u := UnitBytes(s[0]);
      assert b == pre + u + EncodeUnits(s[1..]);
      UnitRoundTrip(s[0], pre, EncodeUnits(s[1..]));
      assert b[|pre|] == u[0];
      PointsOfEncoded(pre + u, s[1..]);
      assert pre + u + EncodeUnits(s[1..]) == b;
    }
  }

  /** `strdecode(strencode(s)) == s` for every string. */
  lemma StrRoundTrip(s: seq<CodeUnit>)
    ensures Points(EncodeUnits(s)) == s
    ensures DecodeText(EncodeUnits(s)) == Some(s)
  {
    PointsOfEncoded([], s);
    assert [] + EncodeUnits(s) == EncodeUnits(s);
    FromCodeUnits(s);
  }
}
