/**
 * The message codec of src/Message.js. A message is, in order: a flag byte holding the
 * type and the compress-route bit; for Request and Response, the id as a little-endian
 * base-128 varint (unsigned LEB128, section 7.6 of DWARF v4); for Request, Notify and
 * Push, the route, either a 2-byte big-endian code or a length byte followed by the
 * route text as `strencode` writes it; then the body, which is every remaining byte.
 */
module Message {
  import opened Wrappers
  import opened Bytes
  import opened Util
  import opened Protocol

  const TYPE_REQUEST: nat := 0
  const TYPE_NOTIFY: nat := 1
  const TYPE_RESPONSE: nat := 2
  const TYPE_PUSH: nat := 3

  const MSG_FLAG_BYTES: nat := 1
  const MSG_ROUTE_CODE_BYTES: nat := 2
  const MSG_ID_MAX_BYTES: nat := 5
  const MSG_ROUTE_LEN_BYTES: nat := 1
  const MSG_ROUTE_CODE_MAX: nat := 0xFFFF

  /** The route argument of `Message.encode`: absent, a number, or a string. */
  datatype RouteArg = NoRoute | Code(code: int) | Text(units: seq<CodeUnit>)

  /** The route `Message.decode` returns: `null`, a number, or a string. */
  datatype Route = Null | CodeRoute(code: nat) | TextRoute(units: seq<CodeUnit>)

  /** The object `Message.decode` returns. */
  datatype Message = Message(id: nat, msgType: nat, compressRoute: bool, route: Route, body: seq<byte>)

  /** The errors `Message.encode` throws. */
  datatype EncodeError =
    | RouteNotNumber  // 'error flag for number route!'
    | RouteTooLong    // 'route maxlength is overflow'
    | UnknownType     // 'unkonw message type: ...'
    | RouteOverflow   // 'route number is overflow'

  /** The RangeErrors `Message.decode` can raise. */
  datatype DecodeError =
    | BadCodePoint    // the route text holds a code point above 0x10FFFF
    | NegativeLength  // the fields run past the end, so the body length is negative

  /** `msgHasId`: only Request and Response carry an id. */
  predicate HasId(t: int)
  {
    t == TYPE_REQUEST || t == TYPE_RESPONSE
  }

  /** `msgHasRoute`: only Request, Notify and Push carry a route. */
  predicate HasRoute(t: int)
  {
    t == TYPE_REQUEST || t == TYPE_NOTIFY || t == TYPE_PUSH
  }

  /** The types `encodeMsgFlag` accepts. */
  predicate KnownType(t: int)
  {
    t == TYPE_REQUEST || t == TYPE_NOTIFY || t == TYPE_RESPONSE || t == TYPE_PUSH
  }

  // ---------------------------------------------------------------- the id

  /**
   * The bytes `encodeMsgId` writes: 7 bits per byte, least significant group first,
   * bit 7 set exactly on the bytes that have a successor.
   */
  function Varint(id: nat): (r: seq<byte>)
    ensures 1 <= |r|
    decreases id
  {
    if id / 128 == 0 then [id % 128] else [id % 128 + 128] + Varint(id / 128)
  }

  /** Bit 7 of a varint byte is set exactly when another byte follows it. */
  lemma {:induction false} VarintContinuation(id: nat)
    ensures Varint(id)[|Varint(id)| - 1] < 128
    ensures forall j :: 0 <= j < |Varint(id)| - 1 ==> Varint(id)[j] >= 128
  {
    if id / 128 != 0 {
      VarintContinuation(id / 128);
    }
  }

  /** An id below 128^k takes at most k base-128 digits (one for k = 0). */
  lemma {:induction false} VarintSize(id: nat, k: nat)
    requires id < Pow128(k)
    ensures |Varint(id)| <= if k == 0 then 1 else k
  {
    if id / 128 != 0 {
      assert k > 0;
      VarintSize(id / 128, k - 1);
    }
  }

  function Pow128(i: nat): (p: nat)
    ensures p >= 1
  {
    if i == 0 then 1 else 128 * Pow128(i - 1)
  }

  /**
   * `caculateMsgIdBytes`: the do-while loop on `id >>= 7`. For ids below 2^31 the
   * 32-bit shift is a division by 128, and the count is the varint's exact length,
   * at most MSG_ID_MAX_BYTES since 2^31 < 128^5.
   */
  method CalculateMsgIdBytes(id: nat) returns (len: nat)
    requires id < 0x8000_0000
    ensures len == |Varint(id)|
    ensures len <= MSG_ID_MAX_BYTES
  {
    VarintSize(id, 5);
    len := 0;
    var cur := id;
    while len == 0 || cur > 0
      invariant len == 0 ==> cur == id
      invariant len > 0 ==> len + (if cur == 0 then 0 else |Varint(cur)|) == |Varint(id)|
      decreases cur, if len == 0 then 1 else 0
    {
      len := len + 1;
      cur := cur / 128;
    }
  }

  /** The first byte of `Varint(cur)` and what follows it. */
  lemma VarintUnfold(cur: nat)
    ensures Varint(cur) == [cur % 128 + (if cur / 128 != 0 then 128 else 0)]
      + (if cur / 128 != 0 then Varint(cur / 128) else [])
  {
  }

  /** `encodeMsgId`: the do-while loop writing `id % 128`, plus 128 while `floor(id / 128) !== 0`. */
  method EncodeMsgId(id: nat, buffer: array<byte>, offset: nat) returns (next: nat)
    requires offset + |Varint(id)| <= buffer.Length
    modifies buffer
    ensures next == offset + |Varint(id)|
    ensures buffer[..next] == old(buffer[..offset]) + Varint(id)
    ensures buffer[next..] == old(buffer[next..])
  {
    next := offset;
    var cur := id;
    var more := true;
    ghost var done: seq<byte> := [];
    ghost var rest := Varint(id);
    ghost var end := offset + |Varint(id)|;
    while more
      invariant done + rest == Varint(id)
      invariant more ==> rest == Varint(cur)
      invariant !more ==> rest == []
      invariant next == offset + |done| <= buffer.Length
      invariant buffer[..offset] == old(buffer[..offset])
      invariant buffer[offset..next] == done
      invariant forall i :: end <= i < buffer.Length ==> buffer[i] == old(buffer[i])
      decreases |rest|
    {
      var tmp := cur % 128;
      var after := cur / 128;
      if after != 0 {
        tmp := tmp + 128;
      }
      VarintUnfold(cur);
      ghost var rest' := if after != 0 then Varint(after) else [];
      assert rest == [tmp] + rest';
      assert (done + [tmp]) + rest' == done + rest;
      buffer[next] := tmp;
      assert buffer[offset..next + 1] == done + [tmp];
      next := next + 1;
      done := done + [tmp];
      rest := rest';
      cur := after;
      more := cur != 0;
    }
    assert buffer[..next] == buffer[..offset] + buffer[offset..next];
    assert buffer[next..] == old(buffer[next..]);
  }

  /** The flag byte `encodeMsgFlag` writes: `(type << 1) | (compressRoute ? 1 : 0)`. */
  function FlagByte(t: nat, compressRoute: bool): byte
    requires KnownType(t)
  {
    t * 2 + (if compressRoute then 1 else 0)
  }

  /** `encodeMsgFlag`: throws for an unknown type, otherwise writes the flag byte. */
  method EncodeMsgFlag(msgType: int, compressRoute: bool, buffer: array<byte>, offset: nat)
    returns (r: Result<nat, EncodeError>)
    requires offset < buffer.Length
    modifies buffer
    ensures !KnownType(msgType) ==> r == Failure(UnknownType) && buffer[..] == old(buffer[..])
    ensures KnownType(msgType) ==>
      (r == Success(offset + MSG_FLAG_BYTES)
       && buffer[..offset + 1] == old(buffer[..offset]) + [FlagByte(msgType, compressRoute)]
       && buffer[offset + 1..] == old(buffer[offset + 1..]))
  {
    if !KnownType(msgType) {
      return Failure(UnknownType);
    }
    buffer[offset] := msgType * 2 + (if compressRoute then 1 else 0);
    r := Success(offset + MSG_FLAG_BYTES);
  }

  /** Whether `if (route)` holds: a nonzero number or a nonempty string. */
  predicate Truthy(route: RouteArg)
  {
    match route
    case NoRoute => false
    case Code(n) => n != 0
    case Text(u) => u != []
  }

  /**
   * The route bytes `strencode` gives for an uncompressed route: the encoded string,
   * and no bytes for anything that is not a string.
   */
  function RouteText(route: RouteArg): seq<byte>
  {
    if route.Text? then EncodeUnits(route.units) else []
  }

  /** The route field: two big-endian bytes, or a length byte and the route's encoded text. */
  function RouteFieldWith(compressRoute: bool, route: RouteArg, text: seq<byte>): (r: seq<byte>)
    requires compressRoute ==> route.Code?
  {
    if compressRoute then [(route.code / 0x100) % 256, route.code % 256]
    else [|text| % 256] + text
  }

  /** The route field of `route` as `Message.encode` writes it. */
  function RouteField(compressRoute: bool, route: RouteArg): (r: seq<byte>)
    requires compressRoute ==> route.Code?
  {
    RouteFieldWith(compressRoute, route, RouteText(route))
  }

  /**
   * `Message.encode` with the route's encoded text given as `text`. The checks come in
   * the source's order: the route's type and length while sizing the buffer, then the
   * message type, then the route code's range.
   */
  function EncodeWith(id: nat, t: int, compressRoute: bool, route: RouteArg, text: seq<byte>, body: seq<byte>)
    : (r: Result<seq<byte>, EncodeError>)
  {
    if HasRoute(t) && compressRoute && !route.Code? then Failure(RouteNotNumber)
    else if HasRoute(t) && !compressRoute && |text| > 255 then Failure(RouteTooLong)
    else if !KnownType(t) then Failure(UnknownType)
    else if HasRoute(t) && compressRoute && route.code > MSG_ROUTE_CODE_MAX then Failure(RouteOverflow)
    else Success(Head(id, t, compressRoute) + (if HasRoute(t) then RouteFieldWith(compressRoute, route, text) else []) + body)
  }

  /** The bytes of `Message.encode(id, type, compressRoute, route, body)`, or the error it throws. */
  function EncodeSpec(id: nat, t: int, compressRoute: bool, route: RouteArg, body: seq<byte>)
    : Result<seq<byte>, EncodeError>
  {
    EncodeWith(id, t, compressRoute, route, RouteText(route), body)
  }

  /** The flag byte, then the id when the type has one. */
  function Head(id: nat, t: int, compressRoute: bool): (h: seq<byte>)
    requires KnownType(t)
    ensures |h| == HeadLength(id, t)
  {
    [FlagByte(t, compressRoute)] + (if HasId(t) then Varint(id) else [])
  }

  function HeadLength(id: nat, t: int): nat
  {
    1 + (if HasId(t) then |Varint(id)| else 0)
  }

  /** `encodeMsgFlag`, then `encodeMsgId` when the type has an id. */
  method EncodeMsgHead(id: nat, msgType: int, compressRoute: bool, buffer: array<byte>) returns (r: Result<nat, EncodeError>)
    requires HeadLength(id, msgType) <= buffer.Length
    modifies buffer
    ensures !KnownType(msgType) ==> r == Failure(UnknownType) && buffer[..] == old(buffer[..])
    ensures KnownType(msgType) ==>
      (r == Success(HeadLength(id, msgType)) && buffer[..HeadLength(id, msgType)] == Head(id, msgType, compressRoute)
       && buffer[HeadLength(id, msgType)..] == old(buffer[HeadLength(id, msgType)..]))
  {
    var flagged := EncodeMsgFlag(msgType, compressRoute, buffer, 0);
    if flagged.Failure? {
      return flagged;
    }
    var offset := flagged.value;
    if HasId(msgType) {
      offset := EncodeMsgId(id, buffer, offset);
    }
    r := Success(offset);
  }

  /**
   * `encodeMsgRoute`: for a compressed route, throws above 0xFFFF and otherwise writes
   * the code big-endian; for an uncompressed one writes the length byte and the text,
   * or a single 0 when the (encoded) route is falsy (`null`).
   */
  method EncodeMsgRoute(compressRoute: bool, code: int, routeBytes: array?<byte>, ghost text: seq<byte>,
                        buffer: array<byte>, offset: nat)
    returns (r: Result<nat, EncodeError>)
    requires routeBytes != buffer
    requires text == if routeBytes == null then [] else routeBytes[..]
    requires compressRoute ==> offset + 2 <= buffer.Length
    requires !compressRoute ==> offset + 1 + |text| <= buffer.Length
    modifies buffer
    ensures compressRoute && code > MSG_ROUTE_CODE_MAX ==> r == Failure(RouteOverflow) && buffer[..] == old(buffer[..])
    ensures compressRoute && code <= MSG_ROUTE_CODE_MAX ==>
      (r == Success(offset + 2)
       && buffer[..offset + 2] == old(buffer[..offset]) + [(code / 0x100) % 256, code % 256])
    ensures !compressRoute ==>
      (r == Success(offset + 1 + |text|) && buffer[..offset + 1 + |text|] == old(buffer[..offset]) + [|text| % 256] + text)
    ensures r.Success? ==> buffer[r.value..] == old(buffer[r.value..])
  {
    var next := offset;
    if compressRoute {
      if code > MSG_ROUTE_CODE_MAX {
        return Failure(RouteOverflow);
      }
      buffer[next] := (code / 0x100) % 256;
      next := next + 1;
      buffer[next] := code % 256;
      next := next + 1;
    } else if routeBytes != null {
      buffer[next] := routeBytes.Length % 256;
      next := next + 1;
      CopyArray(buffer, next, routeBytes, 0, routeBytes.Length);
      next := next + routeBytes.Length;
      assert buffer[offset + 1..next] == routeBytes[..];
    } else {
      buffer[next] := 0;
      next := next + 1;
    }
    r := Success(next);
  }

  /** `encodeMsgBody`: copies the body to `offset`. */
  method EncodeMsgBody(msg: array<byte>, buffer: array<byte>, offset: nat) returns (next: nat)
    requires msg != buffer
    requires offset + msg.Length <= buffer.Length
    modifies buffer
    ensures next == offset + msg.Length
    ensures buffer[..next] == old(buffer[..offset]) + msg[..]
    ensures buffer[next..] == old(buffer[next..])
  {
    CopyArray(buffer, offset, msg, 0, msg.Length);
    next := offset + msg.Length;
    assert buffer[offset..next] == msg[..];
  }

  /**
   * The `encodeMsgRoute` call of `Message.encode`: the route's code when compressed,
   * else its encoded text `routeBytes` (`null` when the route is falsy).
   */
  method EncodeRouteField(compressRoute: bool, route: RouteArg, routeBytes: array?<byte>, ghost text: seq<byte>,
                          buffer: array<byte>, offset: nat)
    returns (r: Result<nat, EncodeError>)
    requires routeBytes != buffer
    requires compressRoute ==> route.Code?
    requires !compressRoute ==> text == if routeBytes == null then [] else routeBytes[..]
    requires offset + |RouteFieldWith(compressRoute, route, text)| <= buffer.Length
    modifies buffer
    ensures r.Failure? <==> compressRoute && route.code > MSG_ROUTE_CODE_MAX
    ensures r.Failure? ==> r.error == RouteOverflow && buffer[..] == old(buffer[..])
    ensures r.Success? ==>
      (r.value == offset + |RouteFieldWith(compressRoute, route, text)|
       && buffer[..r.value] == old(buffer[..offset]) + RouteFieldWith(compressRoute, route, text)
       && buffer[r.value..] == old(buffer[r.value..]))
  {
    ghost var field := RouteFieldWith(compressRoute, route, text);
    if compressRoute {
      assert field == [(route.code / 0x100) % 256, route.code % 256];
      r := EncodeMsgRoute(true, route.code, routeBytes, if routeBytes == null then [] else routeBytes[..], buffer, offset);
      assert r.Success? ==> buffer[..r.value] == old(buffer[..offset]) + field;
    } else {
      assert field == [|text| % 256] + text;
      r := EncodeMsgRoute(false, 0, routeBytes, text, buffer, offset);
      assert r == Success(offset + |field|);
      assert buffer[..r.value] == old(buffer[..offset]) + field;
    }
  }

  /**
   * The sizing half of `Message.encode`: `1 + idBytes`, plus 2 for a compressed route
   * (throwing unless it is a number) or 1 plus the encoded route `text` (throwing above
   * 255 bytes), plus the body. Returns the length and the encoded route, `null` if falsy.
   */
  method MessageLength(id: nat, msgType: int, compressRoute: bool, route: RouteArg, ghost text: seq<byte>, msg: array?<byte>)
    returns (r: Result<(nat, array?<byte>), EncodeError>)
    requires HasId(msgType) ==> id < 0x8000_0000
    requires text == RouteText(route)
    ensures r.Failure? <==> HasRoute(msgType) && ((compressRoute && !route.Code?) || (!compressRoute && |text| > 255))
    ensures r.Failure? ==> r.error == if compressRoute then RouteNotNumber else RouteTooLong
    ensures r.Success? ==> (r.value.0 == HeadLength(id, msgType)
      + (if HasRoute(msgType) && compressRoute then 2 else 0)
      + (if HasRoute(msgType) && !compressRoute then 1 + |text| else 0)
      + (if msg == null then 0 else msg.Length))
    ensures r.Success? && HasRoute(msgType) && !compressRoute ==>
      text == if r.value.1 == null then [] else r.value.1[..]
    ensures r.Success? && r.value.1 != null ==> fresh(r.value.1)
  {
    var idBytes := 0;
    if HasId(msgType) {
      idBytes := CalculateMsgIdBytes(id);
    }
    var msgLen := MSG_FLAG_BYTES + idBytes;
    var routeBytes: array?<byte> := null;
    if HasRoute(msgType) {
      if compressRoute {
        if !route.Code? {
          return Failure(RouteNotNumber);
        }
        msgLen := msgLen + MSG_ROUTE_CODE_BYTES;
      } else {
        msgLen := msgLen + MSG_ROUTE_LEN_BYTES;
        if Truthy(route) {
          if route.Text? {
            routeBytes := StrEncode(route.units);
          } else {
            // `strencode` of a number finds no `length` and returns an empty array
            routeBytes := new byte[0];
          }
          if routeBytes.Length > 255 {
            return Failure(RouteTooLong);
          }
          msgLen := msgLen + routeBytes.Length;
        }
      }
    }
    if msg != null {
      msgLen := msgLen + msg.Length;
    }
    r := Success((msgLen, routeBytes));
  }

  /**
   * `Message.encode`: sizes the buffer (throwing for a bad route), then writes the flag,
   * the id and the route when the type has them, and the body.
   */
  method Encode(id: nat, msgType: int, compressRoute: bool, route: RouteArg, msg: array?<byte>)
    returns (r: Result<array<byte>, EncodeError>)
    requires HasId(msgType) ==> id < 0x8000_0000
    ensures r.Failure? ==> EncodeSpec(id, msgType, compressRoute, route, if msg == null then [] else msg[..]) == Failure(r.error)
    ensures r.Success? ==> EncodeSpec(id, msgType, compressRoute, route, if msg == null then [] else msg[..]) == Success(r.value[..])
  {
    ghost var body := if msg == null then [] else msg[..];
    ghost var text := RouteText(route);
    ghost var spec := EncodeWith(id, msgType, compressRoute, route, text, body);
    assert spec == EncodeSpec(id, msgType, compressRoute, route, body);
    var sized := MessageLength(id, msgType, compressRoute, route, text, msg);
    if sized.Failure? {
      return Failure(sized.error);
    }
    var (msgLen, routeBytes) := sized.value;

    var buffer := new byte[msgLen];
    var headed := EncodeMsgHead(id, msgType, compressRoute, buffer);
    if headed.Failure? {
      return Failure(headed.error);
    }
    var offset := headed.value;
    ghost var written := Head(id, msgType, compressRoute);

    if HasRoute(msgType) {
      var routed := EncodeRouteField(compressRoute, route, routeBytes, text, buffer, offset);
      if routed.Failure? {
        return Failure(routed.error);
      }
      offset := routed.value;
      written := written + RouteFieldWith(compressRoute, route, text);
    } else {
      assert written + [] == written;
    }
    assert buffer[..offset] == written;
    assert spec == Success(written + body);

    if msg != null {
      offset := EncodeMsgBody(msg, buffer, offset);
      assert msg[..] == body;
    } else {
      assert written + body == written;
    }
    assert buffer[..] == buffer[..offset];
    r := Success(buffer);
  }

  // ---------------------------------------------------------------- decoding

  /**
   * The id the do-while loop of `Message.decode` accumulates from `pos` on, summing
   * `(m & 0x7f) * 2^(7i)`, and the offset after it. A read past the end gives `NaN`,
   * which contributes 0 and ends the loop.
   */
  function VarintFrom(s: seq<byte>, pos: nat): (r: (nat, nat))
    ensures pos < r.1
    ensures pos <= |s| ==> r.1 <= |s| + 1
    decreases |s| - pos
  {
    var m := ByteAt(s, pos);
    if m < 128 then (m, pos + 1)
    else
      var rest := VarintFrom(s, pos + 1);
      (m % 128 + 128 * rest.0, rest.1)
  }

  /** Where `offset` stands in `Message.decode`: a position, or NaN after `offset += undefined`. */
  datatype Cursor = At(pos: nat) | NaN

  /** The route `Message.decode` parses at `pos`, and the cursor after it. */
  function RouteFrom(s: seq<byte>, pos: nat, compressRoute: bool): Result<(Route, Cursor), DecodeError>
  {
    if compressRoute then
      Success((CodeRoute(ByteAt(s, pos) * 0x100 + ByteAt(s, pos + 1)), At(pos + 2)))
    else if pos >= |s| then
      // the length byte reads as `undefined`: the route is '' and the offset NaN
      Success((TextRoute([]), NaN))
    else if s[pos] == 0 then
      Success((TextRoute([]), At(pos + 1)))
    else
      match DecodeText(ZeroFilled(s, pos + 1, s[pos]))
      case None => Failure(BadCodePoint)
      case Some(u) => Success((TextRoute(u), At(pos + 1 + s[pos])))
  }

  /** The body: every byte from the cursor on; none at NaN; a RangeError past the end. */
  function BodyFrom(s: seq<byte>, c: Cursor): Result<seq<byte>, DecodeError>
  {
    match c
    case NaN => Success([])
    case At(p) => if p > |s| then Failure(NegativeLength) else Success(s[p..])
  }

  /**
   * The result of `Message.decode(s)`. The decoder checks no bounds: it reads the
   * flag, the id when the type has one, the route when the type has one, and takes
   * the rest as the body. A type without an id decodes with id 0, and the route is
   * `null` exactly for the types without one.
   */
  function DecodeSpec(s: seq<byte>): (r: Result<Message, DecodeError>)
    ensures r.Success? ==> r.value.msgType < 8
    ensures r.Success? ==> (HasId(r.value.msgType) || r.value.id == 0)
    ensures r.Success? ==> (r.value.route.Null? <==> !HasRoute(r.value.msgType))
    ensures r.Success? && r.value.route.CodeRoute? ==> r.value.route.code <= MSG_ROUTE_CODE_MAX
  {
    var flag := ByteAt(s, 0);
    var compressRoute := flag % 2 == 1;
    var t := (flag / 2) % 8;
    var idAt := if HasId(t) then VarintFrom(s, 1) else (0, 1);
    var routed := if HasRoute(t) then RouteFrom(s, idAt.1, compressRoute) else Success((Null, At(idAt.1)));
    if routed.Failure? then Failure(routed.error)
    else
      var body := BodyFrom(s, routed.value.1);
      if body.Failure? then Failure(body.error)
      else Success(Message(idAt.0, t, compressRoute, routed.value.0, body.value))
  }

  lemma AccumulateStep(id: int, p: int, digit: int, v: int)
    ensures id + p * (digit + 128 * v) == (id + digit * p) + (128 * p) * v
  {
    calc {
      p * (digit + 128 * v);
      p * digit + p * (128 * v);
      { assert p * (128 * v) == (128 * p) * v; }
      digit * p + (128 * p) * v;
    }
  }

  /** One round of the id loop: the digit read at `pos` joins the sum, or the loop ends there. */
  lemma VarintFromStep(s: seq<byte>, pos: nat, id: nat, i: nat, total: (nat, nat))
    requires id + Pow128(i) * VarintFrom(s, pos).0 == total.0 && VarintFrom(s, pos).1 == total.1
    ensures var sum := id + (ByteAt(s, pos) % 128) * Pow128(i);
      && (ByteAt(s, pos) >= 128 ==>
            sum + Pow128(i + 1) * VarintFrom(s, pos + 1).0 == total.0 && VarintFrom(s, pos + 1).1 == total.1)
      && (ByteAt(s, pos) < 128 ==> (sum, pos + 1) == total)
  {
    var m := ByteAt(s, pos);
    var p := Pow128(i);
    assert Pow128(i + 1) == 128 * p;
    if m >= 128 {
      AccumulateStep(id, p, m % 128, VarintFrom(s, pos + 1).0);
    }
  }

  /** The id loop of `Message.decode`, from `offset`; returns the id and the new offset. */
  method DecodeMsgId(bytes: array<byte>, offset: nat) returns (id: nat, next: nat)
    ensures (id, next) == VarintFrom(bytes[..], offset)
  {
    ghost var s := bytes[..];
    ghost var total := VarintFrom(s, offset);
    id := 0;
    next := offset;
    var i := 0;
    var m := 0;
    var more := true;
    while more
      invariant next >= offset
      invariant more ==> id + Pow128(i) * VarintFrom(s, next).0 == total.0 && VarintFrom(s, next).1 == total.1
      invariant !more ==> (id, next) == total
      decreases if more then total.1 - next else 0
    {
      m := Read(bytes, next);
      VarintFromStep(s, next, id, i, total);
      id := id + (m % 128) * Pow128(i);
      next := next + 1;
      i := i + 1;
      more := m >= 128;
    }
  }

  /** `Message.decode` in terms of what its flag, id and route parsing gave. */
  lemma DecodeSteps(s: seq<byte>, t: nat, compressRoute: bool, id: nat, idEnd: nat,
                    routed: Result<(Route, Cursor), DecodeError>)
    requires ByteAt(s, 0) % 2 == 1 <==> compressRoute
    requires (ByteAt(s, 0) / 2) % 8 == t
    requires (if HasId(t) then VarintFrom(s, 1) else (0, 1)) == (id, idEnd)
    requires (if HasRoute(t) then RouteFrom(s, idEnd, compressRoute) else Success((Null, At(idEnd)))) == routed
    ensures routed.Failure? ==> DecodeSpec(s) == Failure(routed.error)
    ensures routed.Success? && BodyFrom(s, routed.value.1).Failure? ==>
      DecodeSpec(s) == Failure(BodyFrom(s, routed.value.1).error)
    ensures routed.Success? && BodyFrom(s, routed.value.1).Success? ==>
      DecodeSpec(s) == Success(Message(id, t, compressRoute, routed.value.0, BodyFrom(s, routed.value.1).value))
  {
  }

  /**
   * The route part of `Message.decode` at `offset`: two bytes for a compressed route,
   * otherwise a length byte and that many bytes of text (none when the length is 0).
   */
  method DecodeMsgRoute(bytes: array<byte>, offset: nat, compressRoute: bool)
    returns (r: Result<(Route, Cursor), DecodeError>)
    ensures r == RouteFrom(bytes[..], offset, compressRoute)
  {
    if compressRoute {
      var route := CodeRoute(Read(bytes, offset) * 0x100 + Read(bytes, offset + 1));
      return Success((route, At(offset + 2)));
    }
    if offset >= bytes.Length {
      // `routeLen` is undefined, so the route is '' and `offset += routeLen` is NaN
      return Success((TextRoute([]), NaN));
    }
    var routeLen := bytes[offset];
    var next := offset + 1;
    var route := TextRoute([]);
    if routeLen != 0 {
      var routeBytes := new byte[routeLen];
      CopyArray(routeBytes, 0, bytes, next, routeLen);
      assert routeBytes[..] == ZeroFilled(bytes[..], next, routeLen);
      var text := StrDecode(routeBytes[..]);
      if text.None? {
        return Failure(BadCodePoint);
      }
      route := TextRoute(text.value);
    }
    next := next + routeLen;
    r := Success((route, At(next)));
  }

  /**
   * `Message.decode`: parses the flag, then the id, then the route, then copies the
   * remaining `bytesLen - offset` bytes into the body.
   */
  method Decode(buffer: seq<byte>) returns (r: Result<Message, DecodeError>)
    ensures r == DecodeSpec(buffer)
  {
    var bytes := new byte[|buffer|](i requires 0 <= i < |buffer| => buffer[i]);
    assert bytes[..] == buffer;
    var bytesLen := bytes.Length;
    var offset := 0;
    var id := 0;

    var flag := Read(bytes, offset);
    offset := offset + 1;
    var compressRoute := flag % 2 == 1;
    var msgType := (flag / 2) % 8;

    if HasId(msgType) {
      id, offset := DecodeMsgId(bytes, offset);
    }
    assert (id, offset) == (if HasId(msgType) then VarintFrom(buffer, 1) else (0, 1));

    var cursor := At(offset);
    var route := Null;
    if HasRoute(msgType) {
      var routed := DecodeMsgRoute(bytes, offset, compressRoute);
      if routed.Failure? {
        DecodeSteps(buffer, msgType, compressRoute, id, offset, routed);
        return Failure(routed.error);
      }
      route, cursor := routed.value.0, routed.value.1;
    }
    DecodeSteps(buffer, msgType, compressRoute, id, offset, Success((route, cursor)));
    var body := DecodeBody(bytes, cursor);
    if body.Failure? {
      return Failure(body.error);
    }
    r := Success(Message(id, msgType, compressRoute, route, body.value));
  }

  /**
   * The body part of `Message.decode`: the `bytesLen - offset` bytes from the cursor on,
   * none after a missing route length (`new Uint8Array(NaN)` is empty), and a RangeError
   * when the route ran past the end.
   */
  method DecodeBody(bytes: array<byte>, cursor: Cursor) returns (r: Result<seq<byte>, DecodeError>)
    ensures r == BodyFrom(bytes[..], cursor)
  {
    var bodyLen := if cursor.NaN? then 0 else bytes.Length - cursor.pos;
    if bodyLen < 0 {
      return Failure(NegativeLength);
    }
    var body := new byte[bodyLen];
    if cursor.At? {
      CopyArray(body, 0, bytes, cursor.pos, bodyLen);
      assert body[..] == bytes[cursor.pos..];
    }
    r := Success(body[..]);
  }

  // ---------------------------------------------------------------- properties

  /** The varint reader reads an encoded id back, and stops right after it. */
  lemma {:induction false} VarintRoundTrip(pre: seq<byte>, id: nat, post: seq<byte>)
    ensures VarintFrom(pre + Varint(id) + post, |pre|) == (id, |pre| + |Varint(id)|)
    decreases id
  {
    var v := Varint(id);
    var s := pre + v + post;
    ByteAtShift(pre, v, post, 0);
    if id / 128 != 0 {
      var tail := Varint(id / 128);
      assert v == [v[0]] + tail;
      assert s == (pre + [v[0]]) + tail + post;
      VarintRoundTrip(pre + [v[0]], id / 128, post);
    }
  }

  /** Two varint examples: 0 is one zero byte, 300 is 0xAC 0x02. */
  lemma VarintExamples()
    ensures Varint(0) == [0x00]
    ensures Varint(300) == [0xAC, 0x02]
  {
  }

  /** A compressed route code reads back from its two big-endian bytes. */
  lemma RouteCodeRoundTrip(code: int)
    requires 0 <= code <= MSG_ROUTE_CODE_MAX
    ensures ((code / 0x100) % 256) * 0x100 + code % 256 == code
  {
  }

  /** What `Message.decode` gives back for a message `Message.encode` accepted. */
  function Expected(id: nat, t: nat, compressRoute: bool, route: RouteArg, body: seq<byte>): Message
    requires compressRoute && HasRoute(t) ==> route.Code? && route.code >= 0
  {
    Message(
      if HasId(t) then id else 0,
      t,
      compressRoute,
      if !HasRoute(t) then Null
      else if compressRoute then CodeRoute(route.code)
      else TextRoute(if route.Text? then route.units else []),
      body)
  }

  /** A compressed route reads back as its code, and parsing stops right after it. */
  lemma CodeRouteRoundTrip(pre: seq<byte>, route: RouteArg, text: seq<byte>, post: seq<byte>)
    requires route.Code? && 0 <= route.code <= MSG_ROUTE_CODE_MAX
    ensures RouteFrom(pre + RouteFieldWith(true, route, text) + post, |pre|, true)
      == Success((CodeRoute(route.code), At(|pre| + 2)))
  {
    var f := RouteFieldWith(true, route, text);
    ByteAtShift(pre, f, post, 0);
    ByteAtShift(pre, f, post, 1);
    RouteCodeRoundTrip(route.code);
  }

  /**
   * An uncompressed route reads back as the string its encoded `text` decodes to
   * ('' when the text is empty), and parsing stops right after it.
   */
  lemma TextRouteRoundTrip(pre: seq<byte>, route: RouteArg, text: seq<byte>, units: seq<CodeUnit>, post: seq<byte>)
    requires |text| <= 255
    requires text == [] ==> units == []
    requires text != [] ==> DecodeText(text) == Some(units)
    ensures RouteFrom(pre + RouteFieldWith(false, route, text) + post, |pre|, false)
      == Success((TextRoute(units), At(|pre| + 1 + |text|)))
  {
    var f := RouteFieldWith(false, route, text);
    var s := pre + f + post;
    ByteAtShift(pre, f, post, 0);
    assert s[|pre|] == |text|;
    if text != [] {
      assert ZeroFilled(s, |pre| + 1, |text|) == text by {
        ZeroFilledInside(s, |pre| + 1, |text|);
        assert s[|pre| + 1..|pre| + 1 + |text|] == text;
      }
    }
  }

  /** The flag byte and the id of an encoded message read back. */
  lemma HeadRoundTrip(id: nat, t: nat, compressRoute: bool, rest: seq<byte>)
    requires KnownType(t)
    ensures ByteAt(Head(id, t, compressRoute) + rest, 0) % 2 == 1 <==> compressRoute
    ensures (ByteAt(Head(id, t, compressRoute) + rest, 0) / 2) % 8 == t
    ensures (if HasId(t) then VarintFrom(Head(id, t, compressRoute) + rest, 1) else (0, 1))
      == (if HasId(t) then id else 0, HeadLength(id, t))
  {
    var flag := FlagByte(t, compressRoute);
    var s := Head(id, t, compressRoute) + rest;
    assert s[0] == flag;
    if HasId(t) {
      VarintRoundTrip([flag], id, rest);
      assert [flag] + Varint(id) + rest == s;
    }
  }

  /** The route field of an encoded message reads back as the route, and ends where the body begins. */
  lemma RouteFieldRoundTrip(pre: seq<byte>, t: nat, compressRoute: bool, route: RouteArg, text: seq<byte>,
                            units: seq<CodeUnit>, body: seq<byte>)
    requires compressRoute && HasRoute(t) ==> route.Code? && 0 <= route.code <= MSG_ROUTE_CODE_MAX
    requires !compressRoute && HasRoute(t) ==> |text| <= 255
    requires text == [] ==> units == []
    requires text != [] ==> DecodeText(text) == Some(units)
    ensures
      var f := if HasRoute(t) then RouteFieldWith(compressRoute, route, text) else [];
      (if HasRoute(t) then RouteFrom(pre + f + body, |pre|, compressRoute) else Success((Null, At(|pre|))))
        == Success((if !HasRoute(t) then Null else if compressRoute then CodeRoute(route.code) else TextRoute(units),
                    At(|pre| + |f|)))
  {
    if HasRoute(t) && compressRoute {
      CodeRouteRoundTrip(pre, route, text, body);
    } else if HasRoute(t) {
      TextRouteRoundTrip(pre, route, text, units, body);
    }
  }

  /** The round trip of `Message.encode` with the route's encoded text given as `text`. */
  lemma RoundTripWith(id: nat, t: nat, compressRoute: bool, route: RouteArg, text: seq<byte>,
                      units: seq<CodeUnit>, body: seq<byte>)
    requires EncodeWith(id, t, compressRoute, route, text, body).Success?
    requires compressRoute && HasRoute(t) ==> route.code >= 0
    requires text == [] ==> units == []
    requires text != [] ==> DecodeText(text) == Some(units)
    ensures DecodeSpec(EncodeWith(id, t, compressRoute, route, text, body).value)
      == Success(Message(if HasId(t) then id else 0, t, compressRoute,
                         if !HasRoute(t) then Null
                         else if compressRoute then CodeRoute(route.code)
                         else TextRoute(units),
                         body))
  {
    var h := Head(id, t, compressRoute);
    var f := if HasRoute(t) then RouteFieldWith(compressRoute, route, text) else [];
    var s := h + f + body;
    assert EncodeWith(id, t, compressRoute, route, text, body).value == s;
    HeadRoundTrip(id, t, compressRoute, f + body);
    assert h + (f + body) == s;
    RouteFieldRoundTrip(h, t, compressRoute, route, text, units, body);
    assert s[|h| + |f|..] == body;
    DecodeSteps(s, t, compressRoute, if HasId(t) then id else 0, |h|,
                Success((if !HasRoute(t) then Null else if compressRoute then CodeRoute(route.code) else TextRoute(units),
                         At(|h| + |f|))));
  }

  /**
   * `Message.decode(Message.encode(id, type, compressRoute, route, body))` gives back
   * the type, the compress-route bit, the id when the type has one, the route when the
   * type has one (an absent route as ''), and the body.
   */
  lemma RoundTrip(id: nat, t: nat, compressRoute: bool, route: RouteArg, body: seq<byte>)
    requires EncodeSpec(id, t, compressRoute, route, body).Success?
    requires compressRoute && HasRoute(t) ==> route.code >= 0
    ensures DecodeSpec(EncodeSpec(id, t, compressRoute, route, body).value)
      == Success(Expected(id, t, compressRoute, route, body))
  {
    var text := RouteText(route);
    var units := if route.Text? then route.units else [];
    if route.Text? {
      StrRoundTrip(route.units);
    }
    RoundTripWith(id, t, compressRoute, route, text, units, body);
  }

  /** `Message.encode` throws exactly in the four cases the source checks. */
  lemma EncodeErrors(id: nat, t: int, compressRoute: bool, route: RouteArg, body: seq<byte>)
    ensures EncodeSpec(id, t, compressRoute, route, body).Failure? <==>
      !KnownType(t)
      || (HasRoute(t) && compressRoute && (!route.Code? || route.code > MSG_ROUTE_CODE_MAX))
      || (HasRoute(t) && !compressRoute && route.Text? && |EncodeUnits(route.units)| > 255)
  {
  }

  /** The route examples: code 500 is 0x01 0xF4; code 70000 overflows. */
  lemma RouteExamples()
    ensures EncodeSpec(1, TYPE_REQUEST, true, Code(500), []) == Success([0x01, 0x01, 0x01, 0xF4])
    ensures EncodeSpec(1, TYPE_REQUEST, true, Code(70000), []) == Failure(RouteOverflow)
  {
    assert Varint(1) == [0x01];
    assert RouteField(true, Code(500)) == [0x01, 0xF4];
    assert [0x01] + [0x01] + [0x01, 0xF4] + [] == [0x01, 0x01, 0x01, 0xF4];
  }
}
