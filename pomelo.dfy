// The Pomelo client session: request/response correlation, push dispatch, the
// handshake, the heartbeat timers and reconnect backoff.

module Session {
  import opened Wrappers
  import opened Bytes
  import opened Protocol
  import Pkg = Package
  import Msg = Message

  const DEFAULT_MAX_RECONNECT_ATTEMPTS: nat := 10
  const RES_OK: int := 200
  const RES_FAIL: int := 500
  const RES_OLD_CLIENT: int := 501
  const INITIAL_RECONNECTION_DELAY: nat := 5000
  /** `gapThreshold`: how much early the heartbeat watchdog tolerates, in milliseconds. */
  const GAP_THRESHOLD: int := 100
  /** The text of `{}`, which a missing `msg` becomes before it is stringified. */
  const EMPTY_OBJECT: seq<CodeUnit> := [0x7B, 0x7D]

  /** A `setTimeout` slot: no timer, or a timer due at `deadline`. */
  datatype Timer = Idle | Pending(deadline: int)

  /** What `request` stores under an id: something that is not a function, or a function. */
  datatype Callback = NoCallback | Handler(tag: nat)

  /** The fields of a parsed handshake reply; `heartbeat` is 0 when `sys.heartbeat` is absent. */
  datatype Reply = Reply(code: int, heartbeat: int, user: seq<CodeUnit>)

  /** A request or notify payload: its JSON text, and its `route` property ('' if none). */
  datatype Payload = Payload(json: seq<CodeUnit>, route: seq<CodeUnit>)

  /** A decoded data message as `processMessage` sees it: the body is the parsed JSON text. */
  datatype Incoming = Incoming(id: nat, route: Msg.Route, body: seq<CodeUnit>)

  /** The events the session emits and the user callbacks it invokes, in order. */
  datatype Event =
    | ReconnectEvent                                      // 'reconnect'
    | CloseEvent                                          // 'close'
    | DisconnectEvent                                     // 'disconnect'
    | IoError                                             // 'io-error'
    | ErrorEvent(reason: string)                          // 'error'
    | HeartbeatTimeoutEvent                               // 'heartbeat timeout'
    | OnMessageEvent(route: Msg.Route, body: seq<CodeUnit>) // 'onMessage'
    | RouteEvent(route: Msg.Route, body: seq<CodeUnit>)   // the event named by the route
    | KickEvent(data: seq<CodeUnit>)                      // 'onKick'
    | Called(tag: nat, body: seq<CodeUnit>)               // a request's callback
    | HandshakeCallback(user: seq<CodeUnit>)              // `handshakeCallback(data.user)`
    | InitCallback                                        // `initCallback(socket)`

  /**
   * What `init` is given and what the session calls but does not define: the `reconnect`
   * and `maxReconnectAttempts` parameters, the stringified handshake buffer, whether the
   * two callbacks are functions, whether an 'error' listener is registered (without one,
   * `emit('error', ...)` throws), and `JSON.parse` (None or false where it throws).
   */
  datatype Config = Config(
    reconnect: bool,
    maxReconnectAttempts: nat,
    handshakeText: seq<CodeUnit>,
    hasInitCallback: bool,
    hasHandshakeCallback: bool,
    hasErrorListener: bool,
    parseReply: seq<CodeUnit> -> Option<Reply>,
    isJson: seq<CodeUnit> -> bool)

  /** The session's fields, with the packets sent and the events emitted as logs. */
  datatype State = State(
    reconnect: bool,
    reconnectTimer: Timer,
    reconnectAttempts: nat,
    reconnectionDelay: nat,
    heartbeatInterval: int,
    heartbeatTimeout: int,
    nextHeartbeatTimeout: int,
    heartbeatId: Timer,
    heartbeatTimeoutId: Timer,
    callbacks: map<nat, Callback>,
    reqId: nat,
    socket: bool,
    sent: seq<seq<byte>>,
    events: seq<Event>)

  /** The state after a call, and whether the call returned normally (false: it threw). */
  datatype Outcome = Outcome(state: State, ok: bool)

  /** `params.maxReconnectAttempts || DEFAULT_MAX_RECONNECT_ATTEMPTS`. */
  function MaxAttempts(c: Config): nat
  {
    if c.maxReconnectAttempts == 0 then DEFAULT_MAX_RECONNECT_ATTEMPTS else c.maxReconnectAttempts
  }

  function Pow2(n: nat): nat
  {
    if n == 0 then 1 else 2 * Pow2(n - 1)
  }

  /** The bytes a `Uint8Array` built from a package body holds: none for `null`. */
  function Raw(body: Option<seq<byte>>): seq<byte>
  {
    if body.Some? then body.value else []
  }

  function OrEmpty(msg: Option<Payload>): Payload
  {
    if msg.Some? then msg.value else Payload(EMPTY_OBJECT, [])
  }

  // ------------------------------------------------------------ the state machine

  /** The state right after the constructor and `init`, which calls `connect`. */
  function Initial(): State
  {
    State(false, Idle, 0, INITIAL_RECONNECTION_DELAY, 0, 0, 0, Idle, Idle, map[], 0, true, [], [])
  }

  /**
   * What every reachable state satisfies: the delay is 5000 doubled once per attempt, the
   * attempts stay within the maximum, the timeout is twice the interval, the heartbeat
   * send timer and the watchdog are never pending together, and every stored callback
   * is under an id already handed out.
   */
  predicate ValidState(c: Config, s: State)
  {
    && BackoffValid(c, s.reconnectAttempts, s.reconnectionDelay)
    && HeartbeatValid(s.heartbeatInterval, s.heartbeatTimeout, s.heartbeatId, s.heartbeatTimeoutId)
    && CallbacksValid(s.callbacks, s.reqId)
  }

  predicate BackoffValid(c: Config, attempts: nat, delay: nat)
  {
    delay == INITIAL_RECONNECTION_DELAY * Pow2(attempts) && attempts <= MaxAttempts(c)
  }

  predicate HeartbeatValid(interval: int, timeout: int, sendTimer: Timer, watchdog: Timer)
  {
    timeout == 2 * interval && !(sendTimer.Pending? && watchdog.Pending?)
  }

  predicate CallbacksValid(callbacks: map<nat, Callback>, reqId: nat)
  {
    forall id :: id in callbacks ==> 1 <= id <= reqId
  }

  function WithEvent(s: State, e: Event): State
  {
    s.(events := s.events + [e])
  }

  function WithPacket(s: State, packet: seq<byte>): State
  {
    s.(sent := s.sent + [packet])
  }

  /** `reset`: the reconnect flag, delay and attempts back to their start; the timer cleared. */
  function ResetStep(s: State): State
  {
    s.(reconnect := false, reconnectionDelay := INITIAL_RECONNECTION_DELAY, reconnectAttempts := 0,
       reconnectTimer := Idle)
  }

  /** The `onOpen` closure of `connect`. */
  function OpenStep(c: Config, s: State): State
  {
    var s1 := if s.reconnect then WithEvent(s, ReconnectEvent) else s;
    WithPacket(ResetStep(s1), Pkg.Frame(Pkg.TYPE_HANDSHAKE, EncodeUnits(c.handshakeText)))
  }

  /** The `onClose` closure of `connect`, at time `now`. */
  function CloseStep(c: Config, s: State, now: int): State
  {
    var s1 := WithEvent(WithEvent(s, CloseEvent), DisconnectEvent);
    if c.reconnect && s1.reconnectAttempts < MaxAttempts(c) then
      s1.(reconnect := true,
          reconnectAttempts := s1.reconnectAttempts + 1,
          reconnectTimer := Pending(now + s1.reconnectionDelay),
          reconnectionDelay := s1.reconnectionDelay * 2)
    else s1
  }

  /** The reconnect timer firing: `connect` makes a new socket. */
  function ReconnectStep(s: State): State
  {
    s.(reconnectTimer := Idle, socket := true)
  }

  /** `handshakeInit`: the heartbeat interval and timeout, then the handshake callback. */
  function HandshakeInitStep(c: Config, s: State, reply: Reply): State
  {
    var s1 := if reply.heartbeat != 0
      then s.(heartbeatInterval := reply.heartbeat * 1000, heartbeatTimeout := reply.heartbeat * 1000 * 2)
      else s.(heartbeatInterval := 0, heartbeatTimeout := 0);
    if c.hasHandshakeCallback then WithEvent(s1, HandshakeCallback(reply.user)) else s1
  }

  /** `JSON.parse(strdecode(data))` for a handshake reply; None where either throws. */
  function ParseReply(c: Config, data: Option<seq<byte>>): Option<Reply>
  {
    match DecodeText(Raw(data))
    case None => None
    case Some(text) => c.parseReply(text)
  }

  /** `handshake`: parses the reply and checks its status code. */
  function HandshakeStep(c: Config, s: State, data: Option<seq<byte>>): Outcome
  {
    match ParseReply(c, data)
    case None => Outcome(s, false)
    case Some(reply) => ReplyStep(c, s, reply)
  }

  /** `emit('error', reason)`: reaches the listener, or throws when there is none. */
  function ErrorStep(c: Config, s: State, reason: string): Outcome
  {
    if c.hasErrorListener then Outcome(WithEvent(s, ErrorEvent(reason)), true) else Outcome(s, false)
  }

  /** The status check of `handshake`: 501 and any other code but 200 are reported as errors. */
  function ReplyStep(c: Config, s: State, reply: Reply): Outcome
  {
    if reply.code == RES_OLD_CLIENT then ErrorStep(c, s, "client version not fullfill")
    else if reply.code != RES_OK then ErrorStep(c, s, "handshake fail")
    else Outcome(AcceptStep(c, s, reply), true)
  }

  /** A handshake with code 200: `handshakeInit`, the HANDSHAKE_ACK package, then `initCallback`. */
  function AcceptStep(c: Config, s: State, reply: Reply): State
  {
    var s1 := WithPacket(HandshakeInitStep(c, s, reply), Pkg.Frame(Pkg.TYPE_HANDSHAKE_ACK, []));
    if c.hasInitCallback then WithEvent(s1, InitCallback) else s1
  }

  /** `heartbeat`, at time `now`: clears the watchdog and arms the send timer if none is pending. */
  function HeartbeatStep(s: State, now: int): State
  {
    if s.heartbeatInterval == 0 then s
    else
      var s1 := s.(heartbeatTimeoutId := Idle);
      if s1.heartbeatId.Pending? then s1
      else s1.(heartbeatId := Pending(now + s.heartbeatInterval))
  }

  /** The heartbeat send timer firing at `now`: sends a heartbeat and arms the watchdog. */
  function HeartbeatFireStep(s: State, now: int): State
  {
    WithPacket(s.(heartbeatId := Idle), Pkg.Frame(Pkg.TYPE_HEARTBEAT, []))
      .(nextHeartbeatTimeout := now + s.heartbeatTimeout,
        heartbeatTimeoutId := Pending(now + s.heartbeatTimeout))
  }

  /** `disconnect`: closes the socket and clears both heartbeat timers. */
  function DisconnectStep(s: State): State
  {
    s.(socket := false, heartbeatId := Idle, heartbeatTimeoutId := Idle)
  }

  /** `heartbeatTimeoutCb` at `now`: waits out the gap, or gives up on the server. */
  function TimeoutStep(s: State, now: int): State
  {
    var gap := s.nextHeartbeatTimeout - now;
    if gap > GAP_THRESHOLD then s.(heartbeatTimeoutId := Pending(now + gap))
    else DisconnectStep(WithEvent(s, HeartbeatTimeoutEvent))
  }

  /** The bytes `defaultEncode` returns, or the error `Message.encode` throws. */
  function DefaultEncoding(reqId: nat, route: seq<CodeUnit>, json: seq<CodeUnit>): Result<seq<byte>, Msg.EncodeError>
  {
    Msg.EncodeSpec(reqId, if reqId != 0 then Msg.TYPE_REQUEST else Msg.TYPE_NOTIFY, false, Msg.Text(route),
                   EncodeUnits(json))
  }

  /** What `defaultDecode` returns, or None where `Message.decode`, `strdecode` or `JSON.parse` throws. */
  function DefaultDecoding(isJson: seq<CodeUnit> -> bool, data: seq<byte>): Option<Incoming>
  {
    match Msg.DecodeSpec(data)
    case Failure(_) => None
    case Success(m) =>
      match DecodeText(m.body)
      case None => None
      case Some(text) => if isJson(text) then Some(Incoming(m.id, m.route, text)) else None
  }

  /** `sendMessage`: one Data package carrying the encoded message. */
  function SendMessageStep(s: State, reqId: nat, route: seq<CodeUnit>, json: seq<CodeUnit>): Outcome
  {
    match DefaultEncoding(reqId, route, json)
    case Failure(_) => Outcome(s, false)
    case Success(m) => Outcome(WithPacket(s, Pkg.Frame(Pkg.TYPE_DATA, m)), true)
  }

  /** `request`: a new id, the message under it, and the callback stored under it. */
  function RequestStep(s: State, route: seq<CodeUnit>, msg: Option<Payload>, cb: Callback): Outcome
  {
    var m := OrEmpty(msg);
    var r := if route != [] then route else m.route;
    if r == [] then Outcome(s, true)
    else
      var id := s.reqId + 1;
      var o := SendMessageStep(s.(reqId := id), id, r, m.json);
      if o.ok then Outcome(o.state.(callbacks := o.state.callbacks[id := cb]), true) else o
  }

  /** `notify`: the message with id 0, no callback. */
  function NotifyStep(s: State, route: seq<CodeUnit>, msg: Option<Payload>): Outcome
  {
    SendMessageStep(s, 0, route, OrEmpty(msg).json)
  }

  /** `processMessage`: a push is emitted twice; a response consumes its callback. */
  function MessageStep(s: State, m: Incoming): State
  {
    if m.id == 0 then WithEvent(WithEvent(s, OnMessageEvent(m.route, m.body)), RouteEvent(m.route, m.body))
    else
      var s1 := s.(callbacks := s.callbacks - {m.id});
      if m.id in s.callbacks && s.callbacks[m.id].Handler? then WithEvent(s1, Called(s.callbacks[m.id].tag, m.body))
      else s1
  }

  /** The route that names the 'error' event. */
  const ERROR_EVENT: seq<CodeUnit> := [0x65, 0x72, 0x72, 0x6F, 0x72]

  /** A push routed to 'error' with no 'error' listener: its second `emit` throws. */
  predicate UnheardError(c: Config, m: Incoming)
  {
    m.id == 0 && m.route == Msg.TextRoute(ERROR_EVENT) && !c.hasErrorListener
  }

  /** `processMessage` with its one throw: 'onMessage' is emitted before the route's emit throws. */
  function ProcessStep(c: Config, s: State, m: Incoming): Outcome
  {
    if UnheardError(c, m) then Outcome(WithEvent(s, OnMessageEvent(m.route, m.body)), false)
    else Outcome(MessageStep(s, m), true)
  }

  /** `onData`: `defaultDecode`, then `processMessage`. */
  function DataStep(c: Config, s: State, data: Option<seq<byte>>): Outcome
  {
    match DefaultDecoding(c.isJson, Raw(data))
    case None => Outcome(s, false)
    case Some(m) => ProcessStep(c, s, m)
  }

  /** `onKick`: emits the parsed kick data. */
  function KickStep(c: Config, s: State, data: Option<seq<byte>>): Outcome
  {
    match DecodeText(Raw(data))
    case None => Outcome(s, false)
    case Some(text) => if c.isJson(text) then Outcome(WithEvent(s, KickEvent(text)), true) else Outcome(s, false)
  }

  /** `handlers[pkg.type](pkg.body)`: a type without a handler throws. */
  function HandleStep(c: Config, s: State, p: Pkg.Package, now: int): Outcome
  {
    if p.pkgType == Pkg.TYPE_HANDSHAKE then HandshakeStep(c, s, p.body)
    else if p.pkgType == Pkg.TYPE_HEARTBEAT then Outcome(HeartbeatStep(s, now), true)
    else if p.pkgType == Pkg.TYPE_DATA then DataStep(c, s, p.body)
    else if p.pkgType == Pkg.TYPE_KICK then KickStep(c, s, p.body)
    else Outcome(s, false)
  }

  /** The loop of `processPackage`: the packages in order, stopping at the first that throws. */
  function ProcessAll(c: Config, s: State, ps: seq<Pkg.Package>, now: int): Outcome
    decreases |ps|
  {
    if ps == [] then Outcome(s, true)
    else
      var o := HandleStep(c, s, ps[0], now);
      if o.ok then ProcessAll(c, o.state, ps[1..], now) else o
  }

  /** `processPackage`: a bare package or an array of them. */
  function PackageStep(c: Config, s: State, d: Pkg.Decoded, now: int): Outcome
  {
    match d
    case Single(p) => HandleStep(c, s, p, now)
    case Many(ps) => ProcessAll(c, s, ps, now)
  }

  /** The `onMessage` closure of `connect`: decode, process, then push the watchdog's deadline. */
  function ArriveStep(c: Config, s: State, data: seq<byte>, now: int): Outcome
  {
    var o := PackageStep(c, s, Pkg.Shape(Pkg.DecodeAll(data)), now);
    if o.ok && o.state.heartbeatTimeout != 0 then
      Outcome(o.state.(nextHeartbeatTimeout := now + o.state.heartbeatTimeout), true)
    else o
  }

  /** What can happen to a session: socket callbacks, timers firing, and the application's calls. */
  datatype Input =
    | Opened
    | Closed(now: int)
    | SocketError
    | ReconnectFires
    | Arrived(data: seq<byte>, now: int)
    | HeartbeatFires(now: int)
    | TimeoutFires(now: int)
    | Disconnected
    | Requested(route: seq<CodeUnit>, msg: Option<Payload>, cb: Callback)
    | Notified(route: seq<CodeUnit>, msg: Option<Payload>)

  /** One input applied to a state; a timer that is not pending does not fire. */
  function Apply(c: Config, s: State, i: Input): Outcome
  {
    match i
    case Opened => Outcome(OpenStep(c, s), true)
    case Closed(now) => Outcome(CloseStep(c, s, now), true)
    case SocketError => Outcome(WithEvent(s, IoError), true)
    case ReconnectFires => Outcome(if s.reconnectTimer.Pending? then ReconnectStep(s) else s, true)
    case Arrived(data, now) => ArriveStep(c, s, data, now)
    case HeartbeatFires(now) => Outcome(if s.heartbeatId.Pending? then HeartbeatFireStep(s, now) else s, true)
    case TimeoutFires(now) => Outcome(if s.heartbeatTimeoutId.Pending? then TimeoutStep(s, now) else s, true)
    case Disconnected => Outcome(DisconnectStep(s), true)
    case Requested(route, msg, cb) => RequestStep(s, route, msg, cb)
    case Notified(route, msg) => NotifyStep(s, route, msg)
  }

  /** A run of inputs; an input that throws leaves the state it reached. */
  function Run(c: Config, s: State, inputs: seq<Input>): State
    decreases |inputs|
  {
    if inputs == [] then s else Run(c, Apply(c, s, inputs[0]).state, inputs[1..])
  }

  // ------------------------------------------------------------ the helpers

  /** `defaultEncode`: REQUEST for a nonzero id and NOTIFY for 0, an uncompressed route. */
  method DefaultEncode(reqId: nat, route: seq<CodeUnit>, json: seq<CodeUnit>)
    returns (r: Result<array<byte>, Msg.EncodeError>)
    requires reqId < 0x8000_0000
    ensures r.Failure? ==> DefaultEncoding(reqId, route, json) == Failure(r.error)
    ensures r.Success? ==> DefaultEncoding(reqId, route, json) == Success(r.value[..])
  {
    var msgType := if reqId != 0 then Msg.TYPE_REQUEST else Msg.TYPE_NOTIFY;
    var msg := StrEncode(json);
    var compressRoute := false;
    r := Msg.Encode(reqId, msgType, compressRoute, Msg.Text(route), msg);
  }

  /** `defaultDecode`: `Message.decode`, then the body through `strdecode` and `JSON.parse`. */
  method DefaultDecode(isJson: seq<CodeUnit> -> bool, data: seq<byte>) returns (r: Option<Incoming>)
    ensures r == DefaultDecoding(isJson, data)
  {
    var msg := Msg.Decode(data);
    if msg.Failure? {
      return None;
    }
    var text := StrDecode(msg.value.body);
    if text.None? || !isJson(text.value) {
      return None;
    }
    r := Some(Incoming(msg.value.id, msg.value.route, text.value));
  }

  // ------------------------------------------------------------ the session

  /** A `Pomelo` session after `init`. */
  class Pomelo {
    const config: Config
    var reconnect: bool
    var reconnectTimer: Timer  // `reconncetTimer`
    var reconnectAttempts: nat
    var reconnectionDelay: nat
    var heartbeatInterval: int
    var heartbeatTimeout: int
    var nextHeartbeatTimeout: int
    var heartbeatId: Timer
    var heartbeatTimeoutId: Timer
    var callbacks: map<nat, Callback>
    var reqId: nat
    var socket: bool
    /** The packets handed to `socket.send`, in order. */
    var sent: seq<seq<byte>>
    /** The events emitted and the callbacks invoked, in order. */
    var events: seq<Event>

    function Abstract(): State
      reads this
    {
      State(reconnect, reconnectTimer, reconnectAttempts, reconnectionDelay, heartbeatInterval,
            heartbeatTimeout, nextHeartbeatTimeout, heartbeatId, heartbeatTimeoutId, callbacks,
            reqId, socket, sent, events)
    }

    predicate Valid()
      reads this
    {
      ValidState(config, Abstract())
    }

    /** The constructor, then `init(params)`, which ends by calling `connect`. */
    constructor (config: Config)
      ensures this.config == config
      ensures Abstract() == Initial()
      ensures Valid()
    {
      this.config := config;
      reconnect := false;
      reconnectTimer := Idle;
      reconnectAttempts := 0;
      reconnectionDelay := INITIAL_RECONNECTION_DELAY;
      heartbeatInterval := 0;
      heartbeatTimeout := 0;
      nextHeartbeatTimeout := 0;
      heartbeatId := Idle;
      heartbeatTimeoutId := Idle;
      callbacks := map[];
      reqId := 0;
      socket := true;
      sent := [];
      events := [];
    }

    /** `emit`, recorded. */
    method Emit(e: Event)
      modifies this
      ensures Abstract() == WithEvent(old(Abstract()), e)
    {
      events := events + [e];
    }

    /** `send`, recorded. */
    method Send(packet: array<byte>)
      modifies this
      ensures Abstract() == WithPacket(old(Abstract()), packet[..])
    {
      sent := sent + [packet[..]];
    }

    method Reset()
      modifies this
      ensures Abstract() == ResetStep(old(Abstract()))
    {
      reconnect := false;
      reconnectionDelay := 1000 * 5;
      reconnectAttempts := 0;
      reconnectTimer := Idle;
    }

    /** The `onOpen` closure. */
    method OnOpen()
      requires Valid()
      modifies this
      ensures Abstract() == OpenStep(config, old(Abstract()))
      ensures Valid()
    {
      OpenKeepsValid(config, Abstract());
      if reconnect {
        Emit(ReconnectEvent);
      }
      Reset();
      var body := StrEncode(config.handshakeText);
      var obj := Pkg.Encode(Pkg.TYPE_HANDSHAKE, body);
      Send(obj);
    }

    /** The `onClose` closure, at time `now`. */
    method OnClose(now: int)
      requires Valid()
      modifies this
      ensures Abstract() == CloseStep(config, old(Abstract()), now)
      ensures Valid()
    {
      CloseKeepsValid(config, Abstract(), now);
      Emit(CloseEvent);
      Emit(DisconnectEvent);
      if config.reconnect && reconnectAttempts < MaxAttempts(config) {
        reconnect := true;
        reconnectAttempts := reconnectAttempts + 1;
        reconnectTimer := Pending(now + reconnectionDelay);
        reconnectionDelay := reconnectionDelay * 2;
      }
    }

    /** The `onError` closure. */
    method OnError()
      requires Valid()
      modifies this
      ensures Abstract() == WithEvent(old(Abstract()), IoError)
      ensures Valid()
    {
      Emit(IoError);
    }

    /** `connect`: a new socket. */
    method Connect()
      modifies this
      ensures Abstract() == old(Abstract()).(socket := true)
    {
      socket := true;
    }

    /** The reconnect timer firing. */
    method FireReconnect()
      requires Valid() && reconnectTimer.Pending?
      modifies this
      ensures Abstract() == ReconnectStep(old(Abstract()))
      ensures Valid()
    {
      reconnectTimer := Idle;
      Connect();
    }

    method HandshakeInit(reply: Reply)
      modifies this
      ensures Abstract() == HandshakeInitStep(config, old(Abstract()), reply)
    {
      if reply.heartbeat != 0 {
        heartbeatInterval := reply.heartbeat * 1000;
        heartbeatTimeout := heartbeatInterval * 2;
      } else {
        heartbeatInterval := 0;
        heartbeatTimeout := 0;
      }
      if config.hasHandshakeCallback {
        Emit(HandshakeCallback(reply.user));
      }
    }

    /** `emit('error', reason)`; `ok` is false where it throws for want of a listener. */
    method EmitError(reason: string) returns (ok: bool)
      modifies this
      ensures Outcome(Abstract(), ok) == ErrorStep(config, old(Abstract()), reason)
    {
      if config.hasErrorListener {
        Emit(ErrorEvent(reason));
        return true;
      }
      return false;
    }

    /** The handler for a HANDSHAKE package; `ok` is false where it throws. */
    method Handshake(data: Option<seq<byte>>) returns (ok: bool)
      modifies this
      ensures Outcome(Abstract(), ok) == HandshakeStep(config, old(Abstract()), data)
    {
      var text := StrDecode(Raw(data));
      if text.None? {
        return false;
      }
      var reply := config.parseReply(text.value);
      if reply.None? {
        return false;
      }
      if reply.value.code == RES_OLD_CLIENT {
        ok := EmitError("client version not fullfill");
        return;
      }
      if reply.value.code != RES_OK {
        ok := EmitError("handshake fail");
        return;
      }
      HandshakeInit(reply.value);
      var obj := Pkg.Encode(Pkg.TYPE_HANDSHAKE_ACK, null);
      Send(obj);
      if config.hasInitCallback {
        Emit(InitCallback);
      }
      return true;
    }

    /** The handler for a HEARTBEAT package, at time `now`. */
    method Heartbeat(now: int)
      modifies this
      ensures Abstract() == HeartbeatStep(old(Abstract()), now)
    {
      if heartbeatInterval == 0 {
        return;
      }
      if heartbeatTimeoutId.Pending? {
        heartbeatTimeoutId := Idle;
      }
      if heartbeatId.Pending? {
        return;
      }
      heartbeatId := Pending(now + heartbeatInterval);
    }

    /** The heartbeat send timer firing at `now`. */
    method FireHeartbeat(now: int)
      requires Valid() && heartbeatId.Pending?
      modifies this
      ensures Abstract() == HeartbeatFireStep(old(Abstract()), now)
      ensures Valid()
    {
      HeartbeatFireKeepsValid(config, Abstract(), now);
      heartbeatId := Idle;
      var obj := Pkg.Encode(Pkg.TYPE_HEARTBEAT, null);
      Send(obj);
      nextHeartbeatTimeout := now + heartbeatTimeout;
      heartbeatTimeoutId := Pending(now + heartbeatTimeout);
    }

    /** `heartbeatTimeoutCb`, run by the watchdog at `now`. */
    method FireHeartbeatTimeout(now: int)
      requires Valid() && heartbeatTimeoutId.Pending?
      modifies this
      ensures Abstract() == TimeoutStep(old(Abstract()), now)
      ensures Valid()
    {
      TimeoutKeepsValid(config, Abstract(), now);
      var gap := nextHeartbeatTimeout - now;
      if gap > GAP_THRESHOLD {
        heartbeatTimeoutId := Pending(now + gap);
      } else {
        Emit(HeartbeatTimeoutEvent);
        Disconnect();
      }
    }

    method Disconnect()
      modifies this
      ensures Abstract() == DisconnectStep(old(Abstract()))
      ensures old(Valid()) ==> Valid()
    {
      if socket {
        socket := false;
      }
      if heartbeatId.Pending? {
        heartbeatId := Idle;
      }
      if heartbeatTimeoutId.Pending? {
        heartbeatTimeoutId := Idle;
      }
    }

    method SendMessage(id: nat, route: seq<CodeUnit>, json: seq<CodeUnit>) returns (ok: bool)
      requires id < 0x8000_0000
      modifies this
      ensures Outcome(Abstract(), ok) == SendMessageStep(old(Abstract()), id, route, json)
    {
      var msg := DefaultEncode(id, route, json);
      if msg.Failure? {
        return false;
      }
      var packet := Pkg.Encode(Pkg.TYPE_DATA, msg.value);
      Send(packet);
      return true;
    }

    /** `request(route, msg, cb)`; `ok` is false where encoding the message throws. */
    method Request(route: seq<CodeUnit>, msg: Option<Payload>, cb: Callback) returns (ok: bool)
      requires Valid() && reqId < 0x7FFF_FFFF
      modifies this
      ensures Outcome(Abstract(), ok) == RequestStep(old(Abstract()), route, msg, cb)
      ensures Valid()
    {
      RequestKeepsValid(config, Abstract(), route, msg, cb);
      var m := OrEmpty(msg);
      var r := if route != [] then route else m.route;
      if r == [] {
        return true;
      }
      reqId := reqId + 1;
      ok := SendMessage(reqId, r, m.json);
      if !ok {
        return;
      }
      callbacks := callbacks[reqId := cb];
    }

    /** `notify(route, msg)`. */
    method Notify(route: seq<CodeUnit>, msg: Option<Payload>) returns (ok: bool)
      requires Valid()
      modifies this
      ensures Outcome(Abstract(), ok) == NotifyStep(old(Abstract()), route, msg)
      ensures Valid()
    {
      NotifyKeepsValid(config, Abstract(), route, msg);
      ok := SendMessage(0, route, OrEmpty(msg).json);
    }

    method ProcessMessage(m: Incoming) returns (ok: bool)
      modifies this
      ensures Outcome(Abstract(), ok) == ProcessStep(config, old(Abstract()), m)
    {
      ok := true;
      if m.id == 0 {
        Emit(OnMessageEvent(m.route, m.body));
        if m.route == Msg.TextRoute(ERROR_EVENT) && !config.hasErrorListener {
          return false;
        }
        Emit(RouteEvent(m.route, m.body));
        return;
      }
      var cb := if m.id in callbacks then callbacks[m.id] else NoCallback;
      callbacks := callbacks - {m.id};
      if cb.Handler? {
        Emit(Called(cb.tag, m.body));
      }
    }

    /** The handler for a DATA package. */
    method OnData(data: Option<seq<byte>>) returns (ok: bool)
      modifies this
      ensures Outcome(Abstract(), ok) == DataStep(config, old(Abstract()), data)
    {
      var msg := DefaultDecode(config.isJson, Raw(data));
      if msg.None? {
        return false;
      }
      ok := ProcessMessage(msg.value);
    }

    /** The handler for a KICK package. */
    method OnKick(data: Option<seq<byte>>) returns (ok: bool)
      modifies this
      ensures Outcome(Abstract(), ok) == KickStep(config, old(Abstract()), data)
    {
      var text := StrDecode(Raw(data));
      if text.None? || !config.isJson(text.value) {
        return false;
      }
      Emit(KickEvent(text.value));
      return true;
    }

    /** `handlers[p.type](p.body)`. */
    method HandlePackage(p: Pkg.Package, now: int) returns (ok: bool)
      modifies this
      ensures Outcome(Abstract(), ok) == HandleStep(config, old(Abstract()), p, now)
    {
      if p.pkgType == Pkg.TYPE_HANDSHAKE {
        ok := Handshake(p.body);
      } else if p.pkgType == Pkg.TYPE_HEARTBEAT {
        Heartbeat(now);
        ok := true;
      } else if p.pkgType == Pkg.TYPE_DATA {
        ok := OnData(p.body);
      } else if p.pkgType == Pkg.TYPE_KICK {
        ok := OnKick(p.body);
      } else {
        ok := false;
      }
    }

    method ProcessPackage(d: Pkg.Decoded, now: int) returns (ok: bool)
      modifies this
      ensures Outcome(Abstract(), ok) == PackageStep(config, old(Abstract()), d, now)
    {
      match d
      case Single(p) =>
        ok := HandlePackage(p, now);
      case Many(ps) =>
        ok := true;
        var i := 0;
        while i < |ps|
          invariant 0 <= i <= |ps|
          invariant ProcessAll(config, Abstract(), ps[i..], now) == ProcessAll(config, old(Abstract()), ps, now)
        {
          ok := HandlePackage(ps[i], now);
          if !ok {
            return;
          }
          i := i + 1;
        }
    }

    /** The `onMessage` closure, for bytes arriving at `now`. */
    method OnMessage(data: seq<byte>, now: int) returns (ok: bool)
      requires Valid()
      modifies this
      ensures Outcome(Abstract(), ok) == ArriveStep(config, old(Abstract()), data, now)
      ensures Valid()
    {
      ArriveKeepsValid(config, Abstract(), data, now);
      var d := Pkg.Decode(data);
      ok := ProcessPackage(d, now);
      if !ok {
        return;
      }
      if heartbeatTimeout != 0 {
        nextHeartbeatTimeout := now + heartbeatTimeout;
      }
    }
  }

  // ------------------------------------------------------------ the invariant

  /** Every input keeps the invariant. */
  lemma ApplyKeepsValid(c: Config, s: State, i: Input)
    requires ValidState(c, s)
    ensures ValidState(c, Apply(c, s, i).state)
  {
    match i
    case Opened => OpenKeepsValid(c, s);
    case Closed(now) => CloseKeepsValid(c, s, now);
    case SocketError =>
    case ReconnectFires =>
    case Arrived(data, now) => ArriveKeepsValid(c, s, data, now);
    case HeartbeatFires(now) => if s.heartbeatId.Pending? { HeartbeatFireKeepsValid(c, s, now); }
    case TimeoutFires(now) => if s.heartbeatTimeoutId.Pending? { TimeoutKeepsValid(c, s, now); }
    case Disconnected =>
    case Requested(route, msg, cb) => RequestKeepsValid(c, s, route, msg, cb);
    case Notified(route, msg) => NotifyKeepsValid(c, s, route, msg);
  }

  lemma OpenKeepsValid(c: Config, s: State)
    requires ValidState(c, s)
    ensures ValidState(c, OpenStep(c, s))
  {
  }

  lemma HeartbeatFireKeepsValid(c: Config, s: State, now: int)
    requires ValidState(c, s) && s.heartbeatId.Pending?
    ensures ValidState(c, HeartbeatFireStep(s, now))
  {
  }

  lemma TimeoutKeepsValid(c: Config, s: State, now: int)
    requires ValidState(c, s) && s.heartbeatTimeoutId.Pending?
    ensures ValidState(c, TimeoutStep(s, now))
  {
  }

  lemma RequestKeepsValid(c: Config, s: State, route: seq<CodeUnit>, msg: Option<Payload>, cb: Callback)
    requires ValidState(c, s)
    ensures ValidState(c, RequestStep(s, route, msg, cb).state)
  {
  }

  lemma NotifyKeepsValid(c: Config, s: State, route: seq<CodeUnit>, msg: Option<Payload>)
    requires ValidState(c, s)
    ensures ValidState(c, NotifyStep(s, route, msg).state)
  {
  }

  /** Every run of inputs from the state after `init` ends in a state meeting the invariant. */
  lemma {:induction false} RunKeepsValid(c: Config, s: State, inputs: seq<Input>)
    requires ValidState(c, s)
    ensures ValidState(c, Run(c, s, inputs))
    decreases |inputs|
  {
    if inputs != [] {
      ApplyKeepsValid(c, s, inputs[0]);
      RunKeepsValid(c, Apply(c, s, inputs[0]).state, inputs[1..]);
    }
  }

  lemma CloseKeepsValid(c: Config, s: State, now: int)
    requires ValidState(c, s)
    ensures ValidState(c, CloseStep(c, s, now))
  {
    var n := s.reconnectAttempts;
    assert Pow2(n + 1) == 2 * Pow2(n);
  }

  lemma ArriveKeepsValid(c: Config, s: State, data: seq<byte>, now: int)
    requires ValidState(c, s)
    ensures ValidState(c, ArriveStep(c, s, data, now).state)
  {
    match Pkg.Shape(Pkg.DecodeAll(data))
    case Single(p) => HandleKeepsValid(c, s, p, now);
    case Many(ps) => ProcessAllKeepsValid(c, s, ps, now);
  }

  lemma HandleKeepsValid(c: Config, s: State, p: Pkg.Package, now: int)
    requires ValidState(c, s)
    ensures ValidState(c, HandleStep(c, s, p, now).state)
  {
    if p.pkgType == Pkg.TYPE_HANDSHAKE {
      HandshakeKeepsValid(c, s, p.body);
    } else if p.pkgType == Pkg.TYPE_DATA {
      DataKeepsValid(c, s, p.body);
    } else if p.pkgType == Pkg.TYPE_KICK {
      var o := KickStep(c, s, p.body);
      assert o.state == s || o.state == s.(events := o.state.events);
    }
  }

  lemma HandshakeKeepsValid(c: Config, s: State, data: Option<seq<byte>>)
    requires ValidState(c, s)
    ensures ValidState(c, HandshakeStep(c, s, data).state)
  {
    match ParseReply(c, data)
    case None =>
    case Some(reply) => ReplyKeepsValid(c, s, reply);
  }

  lemma ReplyKeepsValid(c: Config, s: State, reply: Reply)
    requires ValidState(c, s)
    ensures ValidState(c, ReplyStep(c, s, reply).state)
  {
    if reply.code == RES_OK {
      AcceptKeepsValid(c, s, reply);
    }
  }

  lemma AcceptKeepsValid(c: Config, s: State, reply: Reply)
    requires ValidState(c, s)
    ensures ValidState(c, AcceptStep(c, s, reply))
  {
    assert ValidState(c, HandshakeInitStep(c, s, reply));
  }

  lemma DataKeepsValid(c: Config, s: State, data: Option<seq<byte>>)
    requires ValidState(c, s)
    ensures ValidState(c, DataStep(c, s, data).state)
  {
    var m := DefaultDecoding(c.isJson, Raw(data));
    if m.Some? && !UnheardError(c, m.value) {
      var s1 := MessageStep(s, m.value);
      assert s1.callbacks.Keys <= s.callbacks.Keys;
    }
  }

  lemma {:induction false} ProcessAllKeepsValid(c: Config, s: State, ps: seq<Pkg.Package>, now: int)
    requires ValidState(c, s)
    ensures ValidState(c, ProcessAll(c, s, ps, now).state)
    decreases |ps|
  {
    if ps != [] {
      HandleKeepsValid(c, s, ps[0], now);
      ProcessAllKeepsValid(c, HandleStep(c, s, ps[0], now).state, ps[1..], now);
    }
  }

  // ------------------------------------------------------------ the codecs as the session uses them

  /**
   * `defaultEncode` throws only for a route whose encoding is over 255 bytes; otherwise
   * `Message.decode` gives back a REQUEST carrying the id, or a NOTIFY for id 0, with the
   * route and the encoded JSON text.
   */
  lemma DefaultEncodingRoundTrip(reqId: nat, route: seq<CodeUnit>, json: seq<CodeUnit>)
    ensures DefaultEncoding(reqId, route, json).Success? <==> |EncodeUnits(route)| <= 255
    ensures DefaultEncoding(reqId, route, json).Success? ==>
      Msg.DecodeSpec(DefaultEncoding(reqId, route, json).value)
        == Success(Msg.Message(reqId, if reqId != 0 then Msg.TYPE_REQUEST else Msg.TYPE_NOTIFY, false,
                               Msg.TextRoute(route), EncodeUnits(json)))
  {
    var t := if reqId != 0 then Msg.TYPE_REQUEST else Msg.TYPE_NOTIFY;
    Msg.EncodeErrors(reqId, t, false, Msg.Text(route), EncodeUnits(json));
    if DefaultEncoding(reqId, route, json).Success? {
      Msg.RoundTrip(reqId, t, false, Msg.Text(route), EncodeUnits(json));
    }
  }

  /**
   * `defaultDecode` of a message the server encoded with an uncompressed route and a JSON
   * body gives back the id (0 for the types without one), the route and the JSON text.
   */
  lemma DefaultDecodingOfEncoded(isJson: seq<CodeUnit> -> bool, id: nat, t: nat, route: Msg.RouteArg,
                                 json: seq<CodeUnit>)
    requires Msg.EncodeSpec(id, t, false, route, EncodeUnits(json)).Success?
    requires isJson(json)
    ensures DefaultDecoding(isJson, Msg.EncodeSpec(id, t, false, route, EncodeUnits(json)).value)
      == Some(Incoming(Msg.Expected(id, t, false, route, EncodeUnits(json)).id,
                       Msg.Expected(id, t, false, route, EncodeUnits(json)).route, json))
  {
    Msg.RoundTrip(id, t, false, route, EncodeUnits(json));
    StrRoundTrip(json);
  }

  /** A packet the session sends decodes, with `Package.decode`, to the one package it framed. */
  lemma SentPackageDecodes(pkgType: byte, body: seq<byte>)
    requires |body| < 0x100_0000
    ensures Pkg.Shape(Pkg.DecodeAll(Pkg.Frame(pkgType, body)))
      == Pkg.Single(Pkg.Package(pkgType, if body == [] then None else Some(body)))
  {
    Pkg.RoundTrip(pkgType, body);
  }

  // ------------------------------------------------------------ requests and responses

  /**
   * `request` without a route (neither argument nor `msg.route`) changes nothing. With
   * one it spends the next id, and it throws exactly when the route's encoding is over
   * 255 bytes, in which case no package is sent and no callback stored.
   */
  lemma RequestCases(s: State, route: seq<CodeUnit>, msg: Option<Payload>, cb: Callback)
    ensures var r := if route != [] then route else OrEmpty(msg).route;
      var o := RequestStep(s, route, msg, cb);
      && (r == [] ==> o == Outcome(s, true))
      && (r != [] ==> (o.ok <==> |EncodeUnits(r)| <= 255))
      && (r != [] && !o.ok ==> o.state == s.(reqId := s.reqId + 1))
  {
    var r := if route != [] then route else OrEmpty(msg).route;
    if r != [] {
      DefaultEncodingRoundTrip(s.reqId + 1, r, OrEmpty(msg).json);
    }
  }

  /**
   * `sendMessage` throws exactly when `defaultEncode` does, and changes nothing then;
   * otherwise it sends the framed message and changes nothing else.
   */
  lemma SendMessageCases(s: State, id: nat, route: seq<CodeUnit>, json: seq<CodeUnit>)
    ensures var o := SendMessageStep(s, id, route, json);
      && (o.ok <==> DefaultEncoding(id, route, json).Success?)
      && (!o.ok ==> o.state == s)
      && (o.ok ==> o.state == WithPacket(s, Pkg.Frame(Pkg.TYPE_DATA, DefaultEncoding(id, route, json).value)))
  {
  }

  /**
   * A `request` that returns sends one Data package whose message decodes as a REQUEST
   * carrying the new id, the route and the JSON text, and stores the callback under that
   * id, which was free.
   */
  lemma RequestRegisters(s: State, route: seq<CodeUnit>, msg: Option<Payload>, cb: Callback)
    requires CallbacksValid(s.callbacks, s.reqId)
    requires route != [] || OrEmpty(msg).route != []
    requires RequestStep(s, route, msg, cb).ok
    ensures var r := if route != [] then route else OrEmpty(msg).route;
      var o := RequestStep(s, route, msg, cb);
      var id := s.reqId + 1;
      var m := DefaultEncoding(id, r, OrEmpty(msg).json);
      && m.Success?
      && id !in s.callbacks
      && o.state == WithPacket(s, Pkg.Frame(Pkg.TYPE_DATA, m.value)).(reqId := id, callbacks := s.callbacks[id := cb])
      && Msg.DecodeSpec(m.value)
           == Success(Msg.Message(id, Msg.TYPE_REQUEST, false, Msg.TextRoute(r), EncodeUnits(OrEmpty(msg).json)))
  {
    var r := if route != [] then route else OrEmpty(msg).route;
    var id := s.reqId + 1;
    var o := SendMessageStep(s.(reqId := id), id, r, OrEmpty(msg).json);
    assert RequestStep(s, route, msg, cb) == if o.ok then Outcome(o.state.(callbacks := o.state.callbacks[id := cb]), true) else o;
    SendMessageCases(s.(reqId := id), id, r, OrEmpty(msg).json);
    DefaultEncodingRoundTrip(id, r, OrEmpty(msg).json);
  }

  /**
   * `notify` sends one Data package whose message decodes as a NOTIFY with id 0, the
   * route and the JSON text, or throws for a route over 255 bytes; it never touches the
   * id counter or the callbacks.
   */
  lemma NotifyCases(s: State, route: seq<CodeUnit>, msg: Option<Payload>)
    ensures var o := NotifyStep(s, route, msg);
      && (o.ok <==> |EncodeUnits(route)| <= 255)
      && o.state.reqId == s.reqId
      && o.state.callbacks == s.callbacks
      && o.state.events == s.events
      && (!o.ok ==> o.state == s)
      && (o.ok ==>
            && o.state.sent == s.sent + [Pkg.Frame(Pkg.TYPE_DATA, DefaultEncoding(0, route, OrEmpty(msg).json).value)]
            && Msg.DecodeSpec(DefaultEncoding(0, route, OrEmpty(msg).json).value)
                 == Success(Msg.Message(0, Msg.TYPE_NOTIFY, false, Msg.TextRoute(route), EncodeUnits(OrEmpty(msg).json))))
  {
    DefaultEncodingRoundTrip(0, route, OrEmpty(msg).json);
  }

  /**
   * `processMessage`: a message with id 0 is emitted as 'onMessage' and then under its
   * route, leaving the callbacks alone; any other id loses its entry, and the callback
   * stored there runs exactly when it is a function.
   */
  lemma MessageCases(s: State, m: Incoming)
    ensures var t := MessageStep(s, m);
      && t.reqId == s.reqId
      && t.sent == s.sent
      && (m.id == 0 ==>
            && t.callbacks == s.callbacks
            && t.events == s.events + [OnMessageEvent(m.route, m.body), RouteEvent(m.route, m.body)])
      && (m.id != 0 ==>
            && t.callbacks == s.callbacks - {m.id}
            && m.id !in t.callbacks
            && (forall k :: k in s.callbacks && k != m.id ==> k in t.callbacks && t.callbacks[k] == s.callbacks[k])
            && t.events == s.events + (if m.id in s.callbacks && s.callbacks[m.id].Handler?
                                       then [Called(s.callbacks[m.id].tag, m.body)] else []))
  {
  }

  /**
   * `processMessage` throws exactly for a push routed to 'error' with no 'error' listener,
   * after emitting 'onMessage' and before anything else; otherwise it returns normally
   * with the state `MessageStep` describes.
   */
  lemma ProcessCases(c: Config, s: State, m: Incoming)
    ensures var o := ProcessStep(c, s, m);
      && (o.ok <==> !(m.id == 0 && m.route == Msg.TextRoute(ERROR_EVENT) && !c.hasErrorListener))
      && (o.ok ==> o.state == MessageStep(s, m))
      && (!o.ok ==> o.state == s.(events := s.events + [OnMessageEvent(m.route, m.body)]))
  {
  }

  /** A response whose id was already answered, or never issued, does nothing. */
  lemma {:induction false} ResponseAtMostOnce(s: State, m: Incoming)
    requires m.id != 0
    ensures MessageStep(MessageStep(s, m), m) == MessageStep(s, m)
    ensures m.id !in s.callbacks ==> MessageStep(s, m) == s
  {
    var t := MessageStep(s, m);
    assert t.callbacks - {m.id} == t.callbacks;
    if m.id !in s.callbacks {
      assert s.callbacks - {m.id} == s.callbacks;
    }
  }

  /**
   * A request followed by the response carrying its id runs the callback once, with the
   * response's body, and leaves the callbacks as they were before the request.
   */
  lemma RequestThenResponse(s: State, route: seq<CodeUnit>, msg: Option<Payload>, cb: Callback, reply: Incoming)
    requires CallbacksValid(s.callbacks, s.reqId)
    requires RequestStep(s, route, msg, cb).ok && (route != [] || OrEmpty(msg).route != [])
    requires reply.id == s.reqId + 1
    ensures var t := RequestStep(s, route, msg, cb).state;
      var u := MessageStep(t, reply);
      && t.reqId == reply.id
      && u.callbacks == s.callbacks
      && u.events == t.events + (if cb.Handler? then [Called(cb.tag, reply.body)] else [])
      && MessageStep(u, reply) == u
  {
    RequestRegisters(s, route, msg, cb);
    var t := RequestStep(s, route, msg, cb).state;
    ResponseToFreshId(t, s.callbacks, cb, reply);
  }

  /** The response for an id that held `cb` and nothing before: `cb` runs, and the entry goes. */
  lemma ResponseToFreshId(t: State, before: map<nat, Callback>, cb: Callback, reply: Incoming)
    requires reply.id != 0 && reply.id !in before
    requires t.callbacks == before[reply.id := cb]
    ensures var u := MessageStep(t, reply);
      && u.callbacks == before
      && u.events == t.events + (if cb.Handler? then [Called(cb.tag, reply.body)] else [])
      && MessageStep(u, reply) == u
  {
    assert t.callbacks - {reply.id} == before;
    ResponseAtMostOnce(t, reply);
  }

  // ------------------------------------------------------------ reconnecting

  /**
   * `onClose` emits 'close' and 'disconnect'; it schedules a reconnect exactly when
   * `params.reconnect` is set and fewer than the maximum attempts were made, after
   * 5000 ms doubled once per earlier attempt, and then doubles the delay.
   */
  lemma CloseBackoff(c: Config, s: State, now: int)
    requires ValidState(c, s)
    ensures var t := CloseStep(c, s, now);
      && t.events == s.events + [CloseEvent, DisconnectEvent]
      && t.sent == s.sent
      && (c.reconnect && s.reconnectAttempts < MaxAttempts(c) ==>
            && t.reconnect
            && t.reconnectAttempts == s.reconnectAttempts + 1
            && t.reconnectTimer == Pending(now + INITIAL_RECONNECTION_DELAY * Pow2(s.reconnectAttempts))
            && t.reconnectionDelay == INITIAL_RECONNECTION_DELAY * Pow2(t.reconnectAttempts))
      && (!(c.reconnect && s.reconnectAttempts < MaxAttempts(c)) ==>
            t == s.(events := s.events + [CloseEvent, DisconnectEvent]))
  {
    assert Pow2(s.reconnectAttempts + 1) == 2 * Pow2(s.reconnectAttempts);
  }

  /** `n` closes in a row, at `now`, with no open in between. */
  function Closes(c: Config, s: State, n: nat, now: int): State
    decreases n
  {
    if n == 0 then s else Closes(c, CloseStep(c, s, now), n - 1, now)
  }

  /**
   * Without an open in between, closes count attempts up to the maximum and no further,
   * so at most `MaxAttempts(c)` reconnects are ever scheduled; without `params.reconnect`
   * there are none.
   */
  lemma {:induction false} ClosesBounded(c: Config, s: State, n: nat, now: int)
    requires ValidState(c, s)
    ensures ValidState(c, Closes(c, s, n, now))
    ensures Closes(c, s, n, now).reconnectAttempts
      == if c.reconnect then Min(s.reconnectAttempts + n, MaxAttempts(c)) else s.reconnectAttempts
    decreases n
  {
    if n > 0 {
      CloseKeepsValid(c, s, now);
      ClosesBounded(c, CloseStep(c, s, now), n - 1, now);
    }
  }

  /**
   * `onOpen` emits 'reconnect' exactly when the open follows a scheduled reconnect, then
   * resets the backoff (even before any handshake) and sends a HANDSHAKE package, which
   * decodes to the handshake buffer's text; the heartbeat is left as it was.
   */
  lemma OpenResets(c: Config, s: State)
    requires |c.handshakeText| < 0x55_5555
    ensures var t := OpenStep(c, s);
      var body := EncodeUnits(c.handshakeText);
      && t.events == s.events + (if s.reconnect then [ReconnectEvent] else [])
      && !t.reconnect && t.reconnectAttempts == 0
      && t.reconnectionDelay == INITIAL_RECONNECTION_DELAY && t.reconnectTimer == Idle
      && t.sent == s.sent + [Pkg.Frame(Pkg.TYPE_HANDSHAKE, body)]
      && Pkg.Shape(Pkg.DecodeAll(Pkg.Frame(Pkg.TYPE_HANDSHAKE, body)))
           == Pkg.Single(Pkg.Package(Pkg.TYPE_HANDSHAKE, if c.handshakeText == [] then None else Some(body)))
      && DecodeText(body) == Some(c.handshakeText)
      && t.heartbeatInterval == s.heartbeatInterval
      && t.heartbeatId == s.heartbeatId && t.heartbeatTimeoutId == s.heartbeatTimeoutId
      && t.callbacks == s.callbacks && t.reqId == s.reqId
  {
    var body := EncodeUnits(c.handshakeText);
    SentPackageDecodes(Pkg.TYPE_HANDSHAKE, body);
    StrRoundTrip(c.handshakeText);
  }

  // ------------------------------------------------------------ the handshake and the heartbeat

  /**
   * `handshake`: a reply that does not parse throws and changes nothing; code 501 and
   * any other code but 200 emit an error and change nothing else, or throw when no
   * 'error' listener is registered; code 200 returns normally, sets the
   * interval to the reply's heartbeat in milliseconds (or 0) and the timeout to twice
   * that, sends a bare HANDSHAKE_ACK, and starts no heartbeat timer.
   */
  lemma HandshakeCases(c: Config, s: State, data: Option<seq<byte>>)
    ensures var o := HandshakeStep(c, s, data);
      && (ParseReply(c, data).None? ==> o == Outcome(s, false))
      && (ParseReply(c, data).Some? && ParseReply(c, data).value.code == RES_OLD_CLIENT ==>
            o == if c.hasErrorListener then Outcome(WithEvent(s, ErrorEvent("client version not fullfill")), true)
                 else Outcome(s, false))
      && (ParseReply(c, data).Some? && ParseReply(c, data).value.code != RES_OLD_CLIENT
          && ParseReply(c, data).value.code != RES_OK ==>
            o == if c.hasErrorListener then Outcome(WithEvent(s, ErrorEvent("handshake fail")), true)
                 else Outcome(s, false))
      && (ParseReply(c, data).Some? && ParseReply(c, data).value.code == RES_OK ==>
            var hb := ParseReply(c, data).value.heartbeat;
            && o.ok
            && o.state.heartbeatInterval == (if hb != 0 then hb * 1000 else 0)
            && o.state.heartbeatTimeout == 2 * o.state.heartbeatInterval
            && o.state.sent == s.sent + [Pkg.Frame(Pkg.TYPE_HANDSHAKE_ACK, [])]
            && Pkg.Shape(Pkg.DecodeAll(Pkg.Frame(Pkg.TYPE_HANDSHAKE_ACK, [])))
                 == Pkg.Single(Pkg.Package(Pkg.TYPE_HANDSHAKE_ACK, None))
            && o.state.heartbeatId == s.heartbeatId && o.state.heartbeatTimeoutId == s.heartbeatTimeoutId
            && o.state.reconnectAttempts == s.reconnectAttempts && o.state.callbacks == s.callbacks)
  {
    SentPackageDecodes(Pkg.TYPE_HANDSHAKE_ACK, []);
  }

  /**
   * `heartbeat` does nothing while the interval is 0. Otherwise it clears the watchdog
   * and keeps a pending send timer, or arms one for `now + interval`; so exactly one send
   * timer is pending afterwards, and nothing is sent yet.
   */
  lemma HeartbeatCases(s: State, now: int)
    ensures var t := HeartbeatStep(s, now);
      && (s.heartbeatInterval == 0 ==> t == s)
      && (s.heartbeatInterval != 0 ==>
            && t.heartbeatTimeoutId == Idle
            && t.heartbeatId == (if s.heartbeatId.Pending? then s.heartbeatId else Pending(now + s.heartbeatInterval))
            && t == s.(heartbeatId := t.heartbeatId, heartbeatTimeoutId := Idle))
  {
  }

  /**
   * The send timer firing sends one heartbeat package and arms the watchdog for twice
   * the interval, which is also the new deadline it checks against.
   */
  lemma HeartbeatFires(c: Config, s: State, now: int)
    requires ValidState(c, s)
    ensures var t := HeartbeatFireStep(s, now);
      && t.sent == s.sent + [Pkg.Frame(Pkg.TYPE_HEARTBEAT, [])]
      && t.heartbeatId == Idle
      && t.nextHeartbeatTimeout == now + 2 * s.heartbeatInterval
      && t.heartbeatTimeoutId == Pending(now + 2 * s.heartbeatInterval)
      && t.events == s.events
      && Pkg.Shape(Pkg.DecodeAll(Pkg.Frame(Pkg.TYPE_HEARTBEAT, [])))
           == Pkg.Single(Pkg.Package(Pkg.TYPE_HEARTBEAT, None))
  {
    SentPackageDecodes(Pkg.TYPE_HEARTBEAT, []);
  }

  /**
   * The watchdog: while the deadline is more than 100 ms away it waits until the deadline;
   * otherwise it emits 'heartbeat timeout' and disconnects, which clears both heartbeat
   * timers but leaves the reconnect state and timer alone.
   */
  lemma TimeoutCases(s: State, now: int)
    ensures var t := TimeoutStep(s, now);
      && (s.nextHeartbeatTimeout - now > GAP_THRESHOLD ==>
            t == s.(heartbeatTimeoutId := Pending(s.nextHeartbeatTimeout)))
      && (s.nextHeartbeatTimeout - now <= GAP_THRESHOLD ==>
            && t.events == s.events + [HeartbeatTimeoutEvent]
            && !t.socket && t.heartbeatId == Idle && t.heartbeatTimeoutId == Idle
            && t.reconnectTimer == s.reconnectTimer && t.reconnect == s.reconnect
            && t.reconnectAttempts == s.reconnectAttempts && t.reconnectionDelay == s.reconnectionDelay
            && t.sent == s.sent && t.callbacks == s.callbacks)
  {
  }

  // ------------------------------------------------------------ arriving packages

  /** Processing two runs of packages one after the other is processing them joined. */
  lemma {:induction false} ProcessAllAppend(c: Config, s: State, a: seq<Pkg.Package>, b: seq<Pkg.Package>, now: int)
    ensures ProcessAll(c, s, a + b, now)
      == (var o := ProcessAll(c, s, a, now); if o.ok then ProcessAll(c, o.state, b, now) else o)
    decreases |a|
  {
    if a != [] {
      assert (a + b)[1..] == a[1..] + b;
      var o := HandleStep(c, s, a[0], now);
      if o.ok {
        ProcessAllAppend(c, o.state, a[1..], b, now);
      }
    } else {
      assert a + b == b;
    }
  }

  /**
   * Encoded packages that reach the socket back to back are handled one by one, in the
   * order they were framed, whether `Package.decode` returns them bare or as an array.
   */
  lemma CoalescedArrival(c: Config, s: State, ps: seq<Pkg.Package>, now: int)
    requires forall i :: 0 <= i < |ps| ==> Pkg.Encodable(ps[i])
    ensures PackageStep(c, s, Pkg.Shape(Pkg.DecodeAll(Pkg.Frames(ps))), now) == ProcessAll(c, s, ps, now)
  {
    Pkg.DecodeFrames(ps);
    if |ps| == 1 {
      assert ps[1..] == [];
    }
  }

  /**
   * A push the server encoded (type PUSH, no id, an uncompressed route and a JSON body)
   * arriving in a Data package is emitted as 'onMessage' and under its route, with the
   * route and the JSON text it was encoded from, and no callback is touched.
   */
  lemma PushArrives(c: Config, s: State, route: seq<CodeUnit>, json: seq<CodeUnit>)
    requires Msg.EncodeSpec(0, Msg.TYPE_PUSH, false, Msg.Text(route), EncodeUnits(json)).Success?
    requires c.isJson(json)
    ensures var m := Msg.EncodeSpec(0, Msg.TYPE_PUSH, false, Msg.Text(route), EncodeUnits(json)).value;
      var o := DataStep(c, s, Some(m));
      && (o.ok <==> route != ERROR_EVENT || c.hasErrorListener)
      && (o.ok ==> o.state.events
                     == s.events + [OnMessageEvent(Msg.TextRoute(route), json), RouteEvent(Msg.TextRoute(route), json)])
      && (!o.ok ==> o.state.events == s.events + [OnMessageEvent(Msg.TextRoute(route), json)])
      && o.state.callbacks == s.callbacks
  {
    DefaultDecodingOfEncoded(c.isJson, 0, Msg.TYPE_PUSH, Msg.Text(route), json);
  }

  /**
   * A response the server encoded (type RESPONSE, the request's id, a JSON body) arriving
   * in a Data package runs the callback stored under that id with the JSON text, once.
   */
  lemma ResponseArrives(c: Config, s: State, id: nat, json: seq<CodeUnit>)
    requires id != 0
    requires Msg.EncodeSpec(id, Msg.TYPE_RESPONSE, false, Msg.NoRoute, EncodeUnits(json)).Success?
    requires c.isJson(json)
    ensures var m := Msg.EncodeSpec(id, Msg.TYPE_RESPONSE, false, Msg.NoRoute, EncodeUnits(json)).value;
      var o := DataStep(c, s, Some(m));
      && o.ok
      && o.state.callbacks == s.callbacks - {id}
      && o.state.events == s.events + (if id in s.callbacks && s.callbacks[id].Handler?
                                       then [Called(s.callbacks[id].tag, json)] else [])
  {
    DefaultDecodingOfEncoded(c.isJson, id, Msg.TYPE_RESPONSE, Msg.NoRoute, json);
  }
}
