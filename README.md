# Pomelo client core in Dafny

This project models the protocol core of a Pomelo WebSocket client: the text codec
(`Protocal.js`), the package framing (`Package.js`), the routed message codec
(`Message.js`), the byte copy they share (`util.js`) and the client session
(`Pomelo.js`): request/response correlation through ids and callbacks, push dispatch,
the handshake, the heartbeat and its watchdog, and reconnect backoff.

Modules:

- `Wrappers`: `Option` and `Result`.
- `Bytes`: bytes as `0..255`, and `ByteAt`, which reads a `Uint8Array` index the way
  JavaScript does (an index past the end gives `undefined`, stored as 0).
- `Util`: `copyArray`, an imperative loop over arrays.
- `Protocol`: `strencode` (UTF-16 code units to the 1–3 byte UTF-8 form) and `strdecode`
  (bytes to code points, then `String.fromCodePoint` in chunks). The methods keep the
  source's loops and are proved against the functions `EncodeUnits`, `Points` and
  `FromCodePoints`. Decoding is total: a truncated group reads zeros, and a code point
  above 0x10FFFF, which makes `fromCodePoint` throw, gives `None`.
- `Package`: the 4-byte header (type, 24-bit big-endian length) and the decoder that
  walks a buffer of coalesced packages. It returns one package, or an array of them.
- `Message`: the flag byte, the base-128 id, the route (a 2-byte code or a
  length-prefixed UTF-8 string) and the body. Every `throw` of `Message.encode` is a
  `Failure` of the result. `Message.decode` fails only where the source throws: a route
  that is not valid text, or a `RangeError` from a body of negative length. A missing
  route length byte turns the offset into `NaN`, and the body is then empty.
- `Session`: a pure `State` with one step function per handler, and the class `Pomelo`.
  The class has the source's fields, and each method is proved to move its fields exactly
  as the step function says. A handler that may throw returns `ok`, which is false
  exactly when the source would throw, given user callbacks and listeners that return
  normally. An `'error'` event with no listener registered throws, as EventEmitter's
  `emit` does, and `Config.hasErrorListener` says whether one is registered. That event
  can come from the handshake's status check or from a push whose route is `"error"`.
  Packets passed to `socket.send` and events emitted are recorded as logs (`sent`, `events`). `JSON.parse` is a parameter of the
  session (`Config.parseReply`, `Config.isJson`). The current time is an explicit `now`,
  and each `setTimeout` is a `Timer` that is idle or pending until a deadline.

## Model

| member | source | states |
|---|---|---|
| Util.CopyArray | src/util.js:1-10 | each of the `length` target bytes equals the source byte at the same shift, reading 0 past the end of `src`; every other byte of `dest` and all of `src` are unchanged |
| Protocol.UnitBytes | src/Protocal.js:17-23 | a code unit takes 1, 2 or 3 bytes by its range; the lead byte's top bits give the width and every later byte is a continuation byte `10xxxxxx` |
| Protocol.EncodeUnitsAppend | src/Protocal.js:14-28 | encoding a concatenation is the concatenation of the encodings |
| Protocol.PutCodes | src/Protocal.js:24-27 | the group is written at `offset`; the bytes before and after it are kept |
| Protocol.StrEncode | src/Protocal.js:11-32 | the returned fresh array holds exactly the UTF-8 form of the string, with length between `|str|` and `3·|str|` |
| Protocol.PointsFromStep | src/Protocal.js:45-60 | helper for `CollectPoints`'s loop invariant: `PointsFrom` unfolded by one round, one code point at `offset`, then a step by the lead byte's width |
| Protocol.CollectPoints | src/Protocal.js:40-60 | the loop collects exactly the code points of `Points(bytes)` |
| Protocol.PointUnits | src/Protocal.js:62 | `fromCodePoint` succeeds exactly for code points up to 0x10FFFF; a point up to 0xFFFF is one unit, and a larger one is a surrogate pair |
| Protocol.FromCodePoints | src/Protocal.js:62-69 | the conversion succeeds iff every point is at most 0x10FFFF, giving between 1 and 2 units per point |
| Protocol.FromCodePointsAppend | src/Protocal.js:66-69 | converting chunk by chunk and concatenating the results equals converting the whole array at once |
| Protocol.FromCodePointChunks | src/Protocal.js:62-69 | the 8192-point chunk loop yields exactly `FromCodePoints(points)`, including the failure |
| Protocol.StrDecode | src/Protocal.js:39-70 | the result is `DecodeText(buffer)`: the code points of the bytes, converted to code units |
| Protocol.UnitRoundTrip | src/Protocal.js:17-58 | decoding the bytes of one code unit gives back that unit and consumes exactly its width |
| Protocol.PointsOfEncoded | src/Protocal.js:11-60 | decoding the encoding of a string that follows any prefix gives back the string's units |
| Protocol.StrRoundTrip | src/Protocal.js:11-70 | `strdecode(strencode(s)) == s` for every string of UTF-16 code units |
| Package.Frame | src/Package.js:49-62 | a frame is the 4-byte header followed by exactly the body |
| Package.Encode | src/Package.js:49-62 | the returned array is the frame of `(type, body)`; a missing body gives a 4-byte frame |
| Package.FrameHeader | src/Package.js:53-56 | the frame's first byte is the type, and its length field reads back as the body length below 2^24 |
| Package.EmptyFrame | src/Package.js:49-62 | a package with no body encodes as `[type, 0, 0, 0]` |
| Package.PackagesFromStep | src/Package.js:77-84 | helper for `Decode`'s loop invariant: `PackagesFrom` unfolded by one round, the package at `offset`, then the rest past its header and body |
| Package.ReadPackage | src/Package.js:78-83 | reads the type, the 24-bit length and the body at `offset`, where a zero length gives a `null` body |
| Package.Decode | src/Package.js:71-86 | the result is the packages of the whole buffer: one object if there is exactly one package, otherwise the array, which is empty for an empty buffer |
| Package.Shape | src/Package.js:85 | a single package is returned bare, and any other count as an array |
| Package.PackagesFromSuffix | src/Package.js:77-84 | decoding from inside a buffer depends only on the bytes from that point on |
| Package.FrameThenRest | src/Package.js:49-86 | decoding a frame followed by more bytes gives its package, then the packages of the rest |
| Package.DecodeFrames | src/Package.js:49-86 | decoding the concatenated frames of any sequence of encodable packages gives back that sequence |
| Package.RoundTrip | src/Package.js:49-86 | `decode(encode(type, body))` is the one package `(type, body)`, with `null` for an empty body |
| Package.Coalesced | src/Package.js:71-86 | two or more frames arriving together decode to the array of their packages, in order |
| Message.VarintContinuation | src/Message.js:181-195 | every digit except the last has its 0x80 bit set, and the last has it clear |
| Message.VarintSize | src/Message.js:161-168 | an id below 128^k takes at most k digits |
| Message.CalculateMsgIdBytes | src/Message.js:161-168 | the byte count the loop returns is exactly the length of the id's encoding, and at most 5 |
| Message.EncodeMsgId | src/Message.js:181-195 | the base-128 digits of the id are written at `offset`, and the returned offset is just past them; the bytes before and after them are kept |
| Message.EncodeMsgFlag | src/Message.js:170-179 | an unknown type throws and leaves the buffer alone; otherwise the flag byte `type << 1 \| compressRoute` is written at `offset` and the other bytes are kept |
| Message.EncodeMsgHead | src/Message.js:71-77 | an unknown type throws and leaves the buffer alone; otherwise the buffer starts with the head, the returned offset is its length, and the bytes after it are kept |
| Message.EncodeMsgRoute | src/Message.js:197-216 | a compressed route over 0xFFFF throws; a compressed route is written as 2 big-endian bytes, and a string route as its length byte then its bytes; a throw leaves the buffer alone, and otherwise the bytes before and after the field are kept |
| Message.EncodeMsgBody | src/Message.js:218-220 | the body is appended at `offset` and the offset advances by its length; the bytes before and after it are kept |
| Message.EncodeRouteField | src/Message.js:80-82 | the route field is appended after the head, throwing only for a compressed code over 0xFFFF; a throw leaves the buffer alone, and otherwise the bytes before and after the field are kept |
| Message.MessageLength | src/Message.js:43-66 | throws iff a routed type has a compressed non-number route or a string route whose UTF-8 form is longer than 255 bytes; otherwise returns the exact total length |
| Message.Encode | src/Message.js:42-90 | the method throws exactly when `EncodeSpec` fails, with the same error; otherwise the bytes it returns are `EncodeSpec`'s |
| Message.EncodeErrors | src/Message.js:42-90 | encoding fails iff the type is unknown, or a compressed route is not a number up to 0xFFFF, or a string route encodes to more than 255 bytes |
| Message.RouteExamples | src/Message.js:197-204 | request 1 with route code 500 encodes as `01 01 01 F4`, and code 70000 throws the overflow |
| Message.VarintFrom | src/Message.js:112-119 | the id loop ends past its start, at most one past the end of the buffer |
| Message.VarintFromStep | src/Message.js:114-119 | one round of the id loop adds the digit times 128^i, and stops at a digit below 128 |
| Message.DecodeMsgId | src/Message.js:111-120 | the loop returns exactly the id and the offset of `VarintFrom` |
| Message.DecodeMsgRoute | src/Message.js:123-137 | the route is read as `RouteFrom` says: a 2-byte code, or a length byte then that many bytes decoded as text |
| Message.DecodeSpec | src/Message.js:98-149 | a decoded message has a 3-bit type, an id of 0 unless the type carries one, a route iff the type carries one, and a route code at most 0xFFFF |
| Message.DecodeSteps | src/Message.js:98-149 | the message is assembled from the flag, id, route and body readings, and fails where one of them fails |
| Message.DecodeBody | src/Message.js:139-143 | the body is every byte from the cursor on, empty after a `NaN` offset, and a `RangeError` when the offset is past the end |
| Message.Decode | src/Message.js:98-149 | the method returns exactly `DecodeSpec(buffer)` |
| Message.VarintRoundTrip | src/Message.js:112-119 | reading back the digits of any id, wherever they sit in a buffer, gives the id and the offset just past them |
| Message.VarintExamples | src/Message.js:181-195 | id 0 is `00`, and id 300 is `AC 02` |
| Message.RouteCodeRoundTrip | src/Message.js:125 | the two route bytes reassemble to the code for every code from 0 to 0xFFFF |
| Message.CodeRouteRoundTrip | src/Message.js:124-125 | a compressed route field reads back as its code and consumes 2 bytes |
| Message.TextRouteRoundTrip | src/Message.js:126-135 | a string route field reads back as the decoded text and consumes its length byte and bytes |
| Message.HeadRoundTrip | src/Message.js:106-120 | the flag byte reads back as the type and the compress bit, and the id digits as the id |
| Message.RouteFieldRoundTrip | src/Message.js:122-137 | the route field of any type reads back as the route that was encoded, or null for a type without one |
| Message.RoundTripWith | src/Message.js:42-149 | decoding an encoded message gives back its id, type, compress flag, route and body |
| Message.RoundTrip | src/Message.js:42-149 | `decode(encode(id, type, compressRoute, route, body))` gives the expected message whenever encode does not throw |
| Session.DefaultEncode | src/Pomelo.js:36-41 | returns exactly the default encoding: a request when the id is non-zero, otherwise a notify, with an uncompressed route and the JSON text as body |
| Session.DefaultEncodingRoundTrip | src/Pomelo.js:36-41 | the default encoding succeeds iff the route's UTF-8 form is at most 255 bytes, and then decodes to the id, type, route and JSON body given |
| Session.DefaultDecode | src/Pomelo.js:31-35 | returns the decoded message with its body as JSON text, or nothing where decoding throws or the text is not JSON |
| Session.DefaultDecodingOfEncoded | src/Pomelo.js:31-35 | decoding an uncompressed encoded message with a JSON body gives back its id, its route and the JSON text |
| Session.SentPackageDecodes | src/Pomelo.js:279-285 | every package the session sends decodes back to its type and body |
| Session.Pomelo.constructor | src/Pomelo.js:51-90 | starts with no callbacks, id 0, no timers, delay 5000 and no attempts, which is a valid state |
| Session.Pomelo.Emit | src/Pomelo.js:94 | appends the event to the event log |
| Session.Pomelo.EmitError | src/Pomelo.js:94 | `emit('error', …)` logs the error when an `'error'` listener is registered, and otherwise throws with the state unchanged |
| Session.Pomelo.Send | src/Pomelo.js:279-285 | appends the packet's bytes to the sent log and changes nothing else |
| Session.Pomelo.Reset | src/Pomelo.js:152-157 | clears the reconnect flag, the attempts and the reconnect timer, and resets the delay to 5000 |
| Session.Pomelo.OnOpen | src/Pomelo.js:188-195 | emits `reconnect` if reconnecting, resets the backoff and sends the handshake package, keeping the state valid |
| Session.Pomelo.OnClose | src/Pomelo.js:217-226 | emits `close` and `disconnect`, then schedules a reconnect with the current delay and doubles the delay while attempts remain, keeping the state valid |
| Session.Pomelo.OnError | src/Pomelo.js:213-216 | emits `io-error` and changes nothing else |
| Session.Pomelo.Connect | src/Pomelo.js:229-235 | opens a socket and changes nothing else |
| Session.Pomelo.FireReconnect | src/Pomelo.js:223 | the reconnect timer fires and connects again, keeping the state valid |
| Session.Pomelo.HandshakeInit | src/Pomelo.js:108-118 | the heartbeat interval is `heartbeat·1000`, or 0 when absent, the timeout is twice that, and the handshake callback is called with the user data |
| Session.Pomelo.Handshake | src/Pomelo.js:91-107 | throws if the reply is not JSON; code 501 and other codes than 200 emit their errors, and throw when no `'error'` listener is registered; code 200 returns normally, initialises the heartbeat, sends the acknowledgement and calls the init callback |
| Session.Pomelo.Heartbeat | src/Pomelo.js:119-141 | with a heartbeat set: clears the watchdog and arms the send timer unless it is already armed |
| Session.Pomelo.FireHeartbeat | src/Pomelo.js:134-140 | sends a heartbeat package, arms the watchdog for twice the interval, and keeps the state valid |
| Session.Pomelo.FireHeartbeatTimeout | src/Pomelo.js:142-151 | re-arms for the remaining gap when it exceeds 100 ms; otherwise emits `heartbeat timeout` and disconnects, keeping the state valid |
| Session.Pomelo.Disconnect | src/Pomelo.js:237-251 | closes the socket and clears both heartbeat timers, preserving validity |
| Session.Pomelo.SendMessage | src/Pomelo.js:273-278 | throws iff the default encoding fails; otherwise sends one data package holding the encoded message |
| Session.Pomelo.Request | src/Pomelo.js:252-268 | without a route nothing happens; otherwise the id is incremented, the message is sent and the callback is stored under the new id, keeping the state valid |
| Session.Pomelo.Notify | src/Pomelo.js:269-272 | sends the message with id 0 and keeps the state valid |
| Session.Pomelo.ProcessMessage | src/Pomelo.js:294-306 | a message without an id is emitted as `onMessage` and under its route, and throws after `onMessage` when the route is `"error"` with no `'error'` listener; otherwise its callback is removed and called |
| Session.Pomelo.OnData | src/Pomelo.js:286-289 | decodes the data and processes the message; throws iff the message or its body text does not decode, the text is not JSON, or the message is a push routed to `"error"` with no `'error'` listener |
| Session.Pomelo.OnKick | src/Pomelo.js:290-293 | emits `onKick` with the parsed data; throws iff the data does not decode as text or is not JSON |
| Session.Pomelo.HandlePackage | src/Pomelo.js:84-87 | dispatches on the package type to the handshake, heartbeat, data or kick handler; any other type throws |
| Session.Pomelo.ProcessPackage | src/Pomelo.js:307-316 | handles the packages in order and stops at the first one that throws |
| Session.Pomelo.OnMessage | src/Pomelo.js:196-212 | decodes the packages and handles them, then pushes the watchdog deadline forward when a heartbeat timeout is set, keeping the state valid |
| Session.ApplyKeepsValid | src/Pomelo.js:152-316 | every handler keeps the backoff, heartbeat and callback invariants |
| Session.RunKeepsValid | src/Pomelo.js:152-316 | any sequence of socket, timer and user events keeps those invariants |
| Session.OpenKeepsValid | src/Pomelo.js:188-195 | opening the socket keeps the invariants |
| Session.CloseKeepsValid | src/Pomelo.js:217-226 | the delay stays 5000·2^attempts and the attempts stay within the maximum on close |
| Session.HeartbeatFireKeepsValid | src/Pomelo.js:134-140 | firing the heartbeat keeps the send timer and the watchdog from being pending together |
| Session.TimeoutKeepsValid | src/Pomelo.js:142-151 | the watchdog keeps the invariants |
| Session.RequestKeepsValid | src/Pomelo.js:252-268 | a request stores its callback only under an id already handed out |
| Session.NotifyKeepsValid | src/Pomelo.js:269-272 | a notify keeps the invariants |
| Session.ArriveKeepsValid | src/Pomelo.js:196-212 | a message arrival keeps the invariants, even when a handler throws |
| Session.HandleKeepsValid | src/Pomelo.js:84-87 | each package handler keeps the invariants |
| Session.HandshakeKeepsValid | src/Pomelo.js:91-107 | the handshake keeps the invariants |
| Session.ReplyKeepsValid | src/Pomelo.js:93-106 | every reply code keeps the invariants |
| Session.AcceptKeepsValid | src/Pomelo.js:102-106 | an accepted handshake keeps the timeout at twice the interval |
| Session.DataKeepsValid | src/Pomelo.js:286-289 | a data package keeps the invariants |
| Session.ProcessAllKeepsValid | src/Pomelo.js:307-316 | handling any number of packages keeps the invariants |
| Session.RequestCases | src/Pomelo.js:252-268 | no route means no change; otherwise the request succeeds iff the route is at most 255 bytes, and a throw leaves only the id incremented |
| Session.SendMessageCases | src/Pomelo.js:273-278 | sending succeeds iff encoding does; a throw changes nothing, and a success appends exactly one data frame |
| Session.RequestRegisters | src/Pomelo.js:252-268 | a successful request uses a fresh id, stores the callback under it, and sends a frame that decodes to a request with that id, route and body |
| Session.NotifyCases | src/Pomelo.js:269-272 | a notify succeeds iff the route is at most 255 bytes, never touches ids or callbacks, and sends a frame that decodes to a notify with id 0 |
| Session.ProcessCases | src/Pomelo.js:294-306 | `processMessage` throws exactly for a push routed to `"error"` with no `'error'` listener, having emitted only `onMessage`; otherwise it returns the state `MessageStep` gives |
| Session.MessageCases | src/Pomelo.js:294-306 | a push emits `onMessage` and the route event; a response removes its id's callback and calls it iff it is a function, leaving every other callback alone |
| Session.ResponseAtMostOnce | src/Pomelo.js:302-305 | a second response with the same id changes nothing, and a response for an unknown id changes nothing |
| Session.ResponseToFreshId | src/Pomelo.js:302-305 | a response to a just-registered id restores the callbacks from before and calls the callback once |
| Session.RequestThenResponse | src/Pomelo.js:252-306 | a request followed by its response calls the request's callback with the response body exactly once and leaves the callbacks as before |
| Session.CloseBackoff | src/Pomelo.js:217-226 | on close, while attempts remain, the reconnect is scheduled after 5000·2^attempts and the delay doubles; otherwise only the two events are emitted |
| Session.ClosesBounded | src/Pomelo.js:217-226 | after n closes the attempts are `min(attempts + n, max)` when reconnecting is enabled, and unchanged otherwise |
| Session.OpenResets | src/Pomelo.js:188-195 | opening resets the backoff, emits `reconnect` iff it was reconnecting, and sends a handshake frame whose body decodes back to the handshake text |
| Session.HandshakeCases | src/Pomelo.js:91-107 | a non-JSON reply throws; 501 and other non-200 codes emit their errors, or throw with nothing changed when there is no `'error'` listener; 200 returns normally, sets the interval and twice it as the timeout, and sends an acknowledgement that decodes as a bodiless handshake ack |
| Session.HeartbeatCases | src/Pomelo.js:119-141 | no interval means no change; otherwise the watchdog is cleared and the send timer is armed once |
| Session.HeartbeatFires | src/Pomelo.js:134-140 | the timer sends exactly one bodiless heartbeat frame and arms the watchdog at twice the interval from now |
| Session.TimeoutCases | src/Pomelo.js:142-151 | a gap over 100 ms re-arms the watchdog at the expected deadline; otherwise the session emits `heartbeat timeout` and disconnects, keeping backoff, callbacks and sent packets |
| Session.ProcessAllAppend | src/Pomelo.js:307-316 | handling `a + b` is handling `a`, then `b` if no handler threw |
| Session.CoalescedArrival | src/Pomelo.js:196-212 | frames that arrive in one message are handled as if they had arrived one by one |
| Session.PushArrives | src/Pomelo.js:286-299 | an encoded push emits `onMessage` and its route event with the JSON body, and leaves the callbacks alone; it throws iff the route is `"error"` with no `'error'` listener, and then only `onMessage` was emitted |
| Session.ResponseArrives | src/Pomelo.js:286-306 | an encoded response removes its id's callback and calls it with the JSON body |

## Left out

- `blobToBuffer` and the `browserWS` branch of `onMessage` and `send`: a browser transport detail. The model takes the bytes as they arrive.
- `send` on a socket that is closed or `false`, which throws in the source: `send` is recorded in the `sent` log, and the transport itself is not modelled.
- `socket.close()` and `wsCreator`: the transport; only whether a socket is open is kept.
- `JSON.stringify` and `JSON.parse`: payloads are carried as their JSON text. Parsing is a parameter (`Config.parseReply`, `Config.isJson`).
- The EventEmitter's listeners: emitted events are appended to the `events` log. Listeners that throw are not modelled, and neither are user callbacks that throw. The one way `emit` itself throws, an `'error'` event with no listener, is modelled. That covers the handshake's errors and a push routed to `"error"`.
- `console.error`: output only.
- Real timers and the event loop: `Date.now()` is the parameter `now`, and a pending `setTimeout` is a deadline. Which callback fires next is chosen by the caller. The runtime clamps a delay above 2^31−1 ms to 1 ms, and this is not modelled. So `Session.CloseBackoff` keeps `now + 5000·2^19` for the 20th reconnect, which the source fires almost at once when `maxReconnectAttempts` is 20 or more.
- `request(route, cb)` with two arguments: the overloading through `arguments.length` is not modelled. `msg` is optional and `cb` is explicit.
- Custom `encode`/`decode` passed to `init`: only the defaults are modelled.
- `init`'s URL choice, `defaultUrlGenerator`, `urlGenerator` and `main.js`: string concatenation for the transport.
- `newInstance`: it only builds another session with the same creators.
- `Message.Encode`: requires ids below 2^31 for the types that carry an id (request and response). `caculateMsgIdBytes` shifts a 32-bit integer, so a larger id would be sized wrongly. `Message.MessageLength` has the same precondition. Notify and push ignore the id and take any id.
- `Message.Encode`: ids are `nat`, so a negative id is not modelled. For a negative id, `encodeMsgId`'s loop never ends, because `Math.floor(id / 128)` stays at -1. The session never passes one.
- `Message.Decode`: the id is summed exactly. The source sums it as a double through `Math.pow`, so an id field of 8 or more bytes, above 2^53, decodes to a rounded value there. The session's own ids never get that long.
- `Session.Pomelo.Request`: requires `reqId` below 2^31 − 1, and `Session.DefaultEncode` and `Session.Pomelo.SendMessage` require an id below 2^31, for the same reason.
- `Package.RoundTrip`: requires bodies below 2^24 bytes. The header holds only 24 bits of length.
- `Message.RoundTrip`: requires a compressed route code that is not negative, because the source's `>> 8` and `& 0xff` do not give back a negative code.
- The limit on the number of arguments of `charDecoder.apply` (`String.fromCodePoint`): chunks are modelled as plain concatenation.
- The `String.fromCharCode` fallback of `strdecode`, used only where `fromCodePoint` is missing: it truncates each code point to 16 bits instead of throwing. Only `fromCodePoint` is modelled.
- The `Buffer.copy` branch of `copyArray`: only the `Uint8Array` loop is modelled.
- Floating-point heartbeat values: `sys.heartbeat` is an integer.
- `data.user` and the handshake buffer: kept as opaque text.
- A route given as a number to `request`/`notify`: routes from the session are strings.
