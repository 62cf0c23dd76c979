/**
 * The package (frame) codec of src/Package.js. A package is a 4-byte header, the
 * type byte and the body length as a 24-bit big-endian number, followed by the
 * body. One buffer received from the socket may hold several packages back to back.
 */
module Package {
  import opened Wrappers
  import opened Bytes
  import opened Util

  const PKG_HEAD_BYTES: nat := 4
  const TYPE_HANDSHAKE: byte := 1
  const TYPE_HANDSHAKE_ACK: byte := 2
  const TYPE_HEARTBEAT: byte := 3
  const TYPE_DATA: byte := 4
  const TYPE_KICK: byte := 5

  /** A decoded package: its type and its body, `null` (None) when the length field is 0. */
  datatype Package = Package(pkgType: byte, body: Option<seq<byte>>)

  /** What `Package.decode` returns: the bare package when exactly one was found, else the array. */
  datatype Decoded = Single(pkg: Package) | Many(pkgs: seq<Package>)

  /** The header `Package.encode` writes: `type & 0xff`, then `length` in big-endian over 3 bytes. */
  function Header(pkgType: int, length: nat): (h: seq<byte>)
    ensures |h| == PKG_HEAD_BYTES
  {
    [pkgType % 256, (length / 0x1_0000) % 256, (length / 0x100) % 256, length % 256]
  }

  /** The bytes of `Package.encode(pkgType, body)`. */
  function Frame(pkgType: int, body: seq<byte>): (r: seq<byte>)
    ensures |r| == PKG_HEAD_BYTES + |body|
    ensures r[PKG_HEAD_BYTES..] == body
  {
    Header(pkgType, |body|) + body
  }

  /**
   * `Package.encode`: writes the header through an `index` counter and copies the body,
   * if there is one, after it. A missing body (`null`) gives a header of length 0.
   */
  method Encode(pkgType: int, body: array?<byte>) returns (r: array<byte>)
    ensures r[..] == Frame(pkgType, if body == null then [] else body[..])
  {
    var length := if body == null then 0 else body.Length;
    var buffer := new byte[PKG_HEAD_BYTES + length];
    var index := 0;
    buffer[index] := pkgType % 256;
    index := index + 1;
    buffer[index] := (length / 0x1_0000) % 256;
    index := index + 1;
    buffer[index] := (length / 0x100) % 256;
    index := index + 1;
    buffer[index] := length % 256;
    index := index + 1;
    if body != null {
      CopyArray(buffer, index, body, 0, length);
    }
    r := buffer;
    assert r[..] == Header(pkgType, length) + r[PKG_HEAD_BYTES..];
  }

  /** The body length field of the header at `offset`, zero-filled past the end. */
  function BodyLength(s: seq<byte>, offset: int): (n: nat)
    ensures n < 0x100_0000
  {
    ByteAt(s, offset + 1) * 0x1_0000 + ByteAt(s, offset + 2) * 0x100 + ByteAt(s, offset + 3)
  }

  /**
   * The packages `Package.decode` collects from `offset` on. A header or body that runs
   * past the end of the buffer is read as zeros: the decoder checks no bounds.
   * Every package but the last one takes at least 4 bytes of the buffer.
   */
  function PackagesFrom(s: seq<byte>, offset: nat): (r: seq<Package>)
    ensures offset <= |s| ==> 4 * |r| <= |s| - offset + 3
    decreases |s| - offset
  {
    if offset >= |s| then []
    else [PackageAt(s, offset)] + PackagesFrom(s, offset + PKG_HEAD_BYTES + BodyLength(s, offset))
  }

  /** The package whose header starts at `offset`: its type byte and its zero-filled body. */
  function PackageAt(s: seq<byte>, offset: nat): Package
    requires offset < |s|
  {
    var length := BodyLength(s, offset);
    Package(s[offset], if length == 0 then None else Some(ZeroFilled(s, offset + PKG_HEAD_BYTES, length)))
  }

  /** One step of `PackagesFrom`: the package at `offset`, then the rest. */
  lemma PackagesFromStep(s: seq<byte>, offset: nat, rs: seq<Package>)
    requires offset < |s|
    ensures rs + PackagesFrom(s, offset)
      == (rs + [PackageAt(s, offset)]) + PackagesFrom(s, offset + PKG_HEAD_BYTES + BodyLength(s, offset))
  {
  }

  /** The packages of a whole buffer. */
  function DecodeAll(s: seq<byte>): seq<Package>
  {
    PackagesFrom(s, 0)
  }

  /** The shape of `Package.decode`'s result: `rs.length === 1 ? rs[0] : rs`. */
  function Shape(rs: seq<Package>): (d: Decoded)
    ensures d.Single? <==> |rs| == 1
    ensures d.Single? ==> d.pkg == rs[0]
    ensures d.Many? ==> d.pkgs == rs
  {
    if |rs| == 1 then Single(rs[0]) else Many(rs)
  }

  /**
   * One round of `Package.decode`'s loop at `offset`: the type byte, the 3-byte length,
   * and a new array holding that many body bytes (`null` for length 0).
   */
  method ReadPackage(bytes: array<byte>, offset: nat) returns (pkg: Package, next: nat)
    requires offset < bytes.Length
    ensures pkg == PackageAt(bytes[..], offset)
    ensures next == offset + PKG_HEAD_BYTES + BodyLength(bytes[..], offset)
  {
    next := offset;
    var pkgType := bytes[next];
    next := next + 1;
    var length := Read(bytes, next) * 0x1_0000 + Read(bytes, next + 1) * 0x100 + Read(bytes, next + 2);
    next := next + 3;
    var body: array?<byte> := null;
    if length != 0 {
      body := new byte[length];
    }
    CopyArray(body, 0, bytes, next, length);
    next := next + length;
    assert length == BodyLength(bytes[..], offset);
    assert body != null ==> body[..] == ZeroFilled(bytes[..], offset + PKG_HEAD_BYTES, length);
    pkg := Package(pkgType, if body == null then None else Some(body[..]));
  }

  /**
   * `Package.decode`: while `offset < bytes.length`, reads a type byte and a length and
   * copies that many body bytes into a new array (`null` for length 0).
   */
  method Decode(buffer: seq<byte>) returns (r: Decoded)
    ensures r == Shape(DecodeAll(buffer))
    ensures buffer == [] ==> r == Many([])
  {
    var offset := 0;
    var bytes := new byte[|buffer|](i requires 0 <= i < |buffer| => buffer[i]);
    assert bytes[..] == buffer;
    var rs: seq<Package> := [];
    while offset < bytes.Length
      invariant bytes[..] == buffer
      invariant rs + PackagesFrom(buffer, offset) == DecodeAll(buffer)
      decreases bytes.Length - offset
    {
      var pkg, next := ReadPackage(bytes, offset);
      PackagesFromStep(buffer, offset, rs);
      rs := rs + [pkg];
      offset := next;
    }
    r := Shape(rs);
  }

  // ---------------------------------------------------------------- properties

  /**
   * The header of an encoded package holds the type byte and, for bodies below
   * 2^24 bytes, the body length read back big-endian.
   */
  lemma FrameHeader(pkgType: byte, body: seq<byte>)
    requires |body| < 0x100_0000
    ensures Frame(pkgType, body)[0] == pkgType
    ensures BodyLength(Frame(pkgType, body), 0) == |body|
  {
    var n := |body|;
    assert (n / 0x1_0000) % 256 == n / 0x1_0000;
    assert n / 0x100 == (n / 0x1_0000) * 0x100 + (n / 0x100) % 256;
  }

  /** A package with no body is exactly the 4-byte header with length 0. */
  lemma EmptyFrame(pkgType: byte)
    ensures Frame(pkgType, []) == [pkgType, 0, 0, 0]
  {
  }

  /** Decoding only looks at the bytes after `|p|` when it starts there. */
  lemma {:induction false} PackagesFromSuffix(p: seq<byte>, q: seq<byte>, k: nat)
    ensures PackagesFrom(p + q, |p| + k) == PackagesFrom(q, k)
    decreases |q| - k
  {
    if k < |q| {
      PackageAtSuffix(p, q, k);
      PackagesFromSuffix(p, q, k + PKG_HEAD_BYTES + BodyLength(q, k));
    }
  }

  /** The package at `|p| + k` of `p + q` is the package at `k` of `q`. */
  lemma PackageAtSuffix(p: seq<byte>, q: seq<byte>, k: nat)
    requires k < |q|
    ensures BodyLength(p + q, |p| + k) == BodyLength(q, k)
    ensures PackageAt(p + q, |p| + k) == PackageAt(q, k)
  {
    ByteAtSuffix(p, q, k + 1);
    ByteAtSuffix(p, q, k + 2);
    ByteAtSuffix(p, q, k + 3);
    ZeroFilledSuffix(p, q, k + PKG_HEAD_BYTES, BodyLength(q, k));
  }

  /** A package whose bytes decode back to itself: a nonempty body shorter than 2^24, or none. */
  predicate Encodable(p: Package)
  {
    p.body.Some? ==> 0 < |p.body.value| < 0x100_0000
  }

  /** The body bytes `Package.encode` is given for `p`. */
  function BodyBytes(p: Package): seq<byte>
  {
    if p.body.Some? then p.body.value else []
  }

  /** The encodings of `ps`, back to back, as the socket may deliver them. */
  function Frames(ps: seq<Package>): (r: seq<byte>)
  {
    if ps == [] then [] else Frame(ps[0].pkgType, BodyBytes(ps[0])) + Frames(ps[1..])
  }

  /** The first package of a buffer that starts with an encoded package is that package. */
  lemma FrameThenRest(p: Package, rest: seq<byte>)
    requires Encodable(p)
    ensures PackagesFrom(Frame(p.pkgType, BodyBytes(p)) + rest, 0)
      == [p] + PackagesFrom(rest, 0)
  {
    var f := Frame(p.pkgType, BodyBytes(p));
    FirstPackage(p, rest);
    PackagesFromSuffix(f, rest, 0);
    PackagesFromStep(f + rest, 0, []);
  }

  /** The package read at the start of an encoded package is that package. */
  lemma FirstPackage(p: Package, rest: seq<byte>)
    requires Encodable(p)
    ensures BodyLength(Frame(p.pkgType, BodyBytes(p)) + rest, 0) == |BodyBytes(p)|
    ensures PackageAt(Frame(p.pkgType, BodyBytes(p)) + rest, 0) == p
  {
    var body := BodyBytes(p);
    var f := Frame(p.pkgType, body);
    var s := f + rest;
    FrameHeader(p.pkgType, body);
    assert BodyLength(s, 0) == |body| by {
      ByteAtShift([], f, rest, 1);
      ByteAtShift([], f, rest, 2);
      ByteAtShift([], f, rest, 3);
      assert [] + f + rest == s;
    }
    if body != [] {
      ZeroFilledInside(s, PKG_HEAD_BYTES, |body|);
      assert s[PKG_HEAD_BYTES..PKG_HEAD_BYTES + |body|] == body;
    }
  }

  /**
   * Decoding the concatenation of encoded packages yields those packages, in order:
   * the round trip for one package, and the splitting of coalesced ones.
   */
  lemma {:induction false} DecodeFrames(ps: seq<Package>)
    requires forall i :: 0 <= i < |ps| ==> Encodable(ps[i])
    ensures DecodeAll(Frames(ps)) == ps
  {
    if ps != [] {
      FrameThenRest(ps[0], Frames(ps[1..]));
      DecodeFrames(ps[1..]);
    }
  }

  /** `Package.decode(Package.encode(type, body))` is that one package, bare. */
  lemma RoundTrip(pkgType: byte, body: seq<byte>)
    requires |body| < 0x100_0000
    ensures Shape(DecodeAll(Frame(pkgType, body)))
      == Single(Package(pkgType, if body == [] then None else Some(body)))
  {
    var p := Package(pkgType, if body == [] then None else Some(body));
    assert Frames([p]) == Frame(pkgType, body) + [];
    DecodeFrames([p]);
    assert Frame(pkgType, body) + [] == Frame(pkgType, body);
  }

  /** Two or more coalesced packages decode as an array of them, in order. */
  lemma Coalesced(ps: seq<Package>)
    requires |ps| >= 2
    requires forall i :: 0 <= i < |ps| ==> Encodable(ps[i])
    ensures Shape(DecodeAll(Frames(ps))) == Many(ps)
  {
    DecodeFrames(ps);
  }
}
