/** The WebSocket connection of the middle generation: a state field that
    follows the ASGI WebSocket message flow (the client connects, the server
    accepts, messages go both ways, either side closes) and refuses every
    operation its state does not allow. */
module VankWebsocket {
  import opened Wrappers
  import opened Bytes

  /** `WebSocketState`, in its numeric order. */
  datatype State = ClientConnecting | Connecting | Connected | Accepting | Accepted | Closing | Closed

  /** The message types `send` lets through in each state. */
  function AllowedTypes(s: State): (ts: set<string>)
    ensures s == Closed <==> ts == {}
    ensures s != Closed ==> "websocket.close" in ts
  {
    match s
    case Accepting => {"websocket.close", "websocket.accept"}
    case Accepted => {"websocket.close", "websocket.send"}
    case Closed => {}
    case _ => {"websocket.close"}
  }

  /** A message from `receive`: its `type` key and its `text` and `bytes`
      keys, each possibly absent. */
  datatype Incoming = Incoming(mtype: Option<string>, text: Option<string>, data: Option<Bytes>)

  /** `StateException` (with the expected states and the current one),
      `WebsocketClosed`, and a bare `WebsocketException`. */
  datatype WsError =
    | StateError(expected: seq<State>, got: State)
    | ClosedError
    | TypeRefused(mtype: string)

  /** What an operation returns. */
  datatype Answer = Received(msg: Incoming) | Text(text: string) | Binary(data: Bytes) | Done

  /** The operations of a connection; the messages the client sends are
      their parameters. */
  datatype Op =
    | Connect(msg: Incoming)
    | Accept
    | Recv(msg: Incoming)
    | RecvText(msg: Incoming)
    | RecvBytes(msg: Incoming)
    | Close
    | Send(mtype: string)

  /** `recv`: refused while closing or closed; a disconnect closes and
      raises; a connect message marks the connection connected. */
  function RecvStep(s: State, msg: Incoming): (State, Result<Answer, WsError>) {
    if s == Closed || s == Closing then (s, Err(ClosedError))
    else if msg.mtype == Some("websocket.disconnect") then (Closed, Err(ClosedError))
    else if msg.mtype == Some("websocket.connect") then (Connected, Ok(Received(msg)))
    else (s, Ok(Received(msg)))
  }

  /** `send`: refused when closed, and for a type the state does not allow;
      the transport's own send is not part of this model and succeeds. */
  function SendStep(s: State, mtype: string): Result<Answer, WsError> {
    if s == Closed then Err(ClosedError)
    else if mtype !in AllowedTypes(s) then Err(TypeRefused(mtype))
    else Ok(Done)
  }

  /** The `_state_expection_wrapper` guard: in mode `include` the state must
      be one of `states`, in mode `exclude` none of them. */
  predicate Admits(s: State, states: seq<State>, inclusive: bool) {
    if inclusive then s in states else s !in states
  }

  /** One operation from state `s`: the state after it and its outcome. */
  function Step(s: State, op: Op): (State, Result<Answer, WsError>) {
    match op
    case Connect(msg) =>
      if !Admits(s, [ClientConnecting], true) then (s, Err(StateError([ClientConnecting], s)))
      else RecvStep(Connecting, msg)
    case Accept =>
      if !Admits(s, [Connected], true) then (s, Err(StateError([Connected], s)))
      else
        var r := SendStep(Accepting, "websocket.accept");
        if r.Err? then (Accepting, r) else (Accepted, r)
    case Recv(msg) => RecvStep(s, msg)
    case RecvText(msg) =>
      if !Admits(s, [Accepted], true) then (s, Err(StateError([Accepted], s)))
      else
        var (s1, r) := RecvStep(s, msg);
        (s1, if r.Err? then r else Ok(Text(if msg.text.Some? then msg.text.value else "")))
    case RecvBytes(msg) =>
      if !Admits(s, [Accepted], true) then (s, Err(StateError([Accepted], s)))
      else
        var (s1, r) := RecvStep(s, msg);
        (s1, if r.Err? then r else Ok(Binary(if msg.data.Some? then msg.data.value else [])))
    case Close =>
      if !Admits(s, [Closed, Closing], false) then (s, Err(StateError([Closed, Closing], s)))
      else
        var r := SendStep(Closing, "websocket.close");
        if r.Err? then (Closing, r) else (Closed, r)
    case Send(mtype) => (s, SendStep(s, mtype))
  }

  /** Closed is absorbing: every operation in Closed raises and leaves the
      state Closed. */
  lemma ClosedAbsorbing(op: Op)
    ensures Step(Closed, op).0 == Closed && Step(Closed, op).1.Err?
  {
  }

  /** `connect` is allowed only from ClientConnecting; any other state gets
      a StateException naming ClientConnecting and the current state,
      unchanged. */
  lemma ConnectOnlyFirst(s: State, msg: Incoming)
    ensures s != ClientConnecting ==> Step(s, Connect(msg)) == (s, Err(StateError([ClientConnecting], s)))
    ensures s == ClientConnecting && msg.mtype == Some("websocket.connect") ==>
              Step(s, Connect(msg)) == (Connected, Ok(Received(msg)))
    ensures s == ClientConnecting && msg.mtype == Some("websocket.disconnect") ==>
              Step(s, Connect(msg)) == (Closed, Err(ClosedError))
  {
  }

  /** The only way into Accepted is `accept` from Connected, and the only way
      into Closed is a close or a disconnect. */
  lemma Transitions(s: State, op: Op)
    ensures s != Accepted && Step(s, op).0 == Accepted ==> op == Accept && s == Connected
    ensures s != Closed && Step(s, op).0 == Closed ==>
              op.Close? || ((op.Connect? || op.Recv? || op.RecvText? || op.RecvBytes?) && op.msg.mtype == Some("websocket.disconnect"))
  {
  }

  /** The receive operations of the application need Accepted, and `send`
      with a data message is allowed exactly in Accepted. */
  lemma DataNeedsAccepted(s: State, msg: Incoming)
    ensures s != Accepted ==> Step(s, RecvText(msg)).1 == Err(StateError([Accepted], s))
    ensures s != Accepted ==> Step(s, RecvBytes(msg)).1 == Err(StateError([Accepted], s))
    ensures Step(s, Send("websocket.send")).1.Ok? <==> s == Accepted
  {
  }

  /** The normal life of a connection: the client's connect message, the
      server's accept, a text message, then the server's close. */
  lemma HappyPath(hello: Incoming, text: string)
    requires hello.mtype == Some("websocket.connect")
    ensures var msg := Incoming(Some("websocket.receive"), Some(text), None);
            var (s1, r1) := Step(ClientConnecting, Connect(hello));
            var (s2, r2) := Step(s1, Accept);
            var (s3, r3) := Step(s2, RecvText(msg));
            var (s4, r4) := Step(s3, Close);
            r1.Ok? && r2.Ok? && r3 == Ok(Text(text)) && r4.Ok? &&
            s1 == Connected && s2 == Accepted && s3 == Accepted && s4 == Closed
  {
  }

  /** A connection. `scope`, `query` and `path` are not part of this model. */
  class WebSocket {
    var state: State

    /** A new connection starts in ClientConnecting. */
    constructor()
      ensures state == ClientConnecting
    {
      state := ClientConnecting;
    }

    /** `is_closed`. */
    function IsClosed(): (b: bool)
      reads this
      ensures b <==> state == Closed
    {
      state == Closed
    }

    method Guard(states: seq<State>, inclusive: bool) returns (err: Option<WsError>)
      ensures err.None? <==> Admits(state, states, inclusive)
      ensures err.Some? ==> err.value == StateError(states, state)
    {
      if (inclusive && state !in states) || (!inclusive && state in states) {
        return Some(StateError(states, state));
      }
      return None;
    }

    /** `recv()` with the message `receive` delivers. */
    method Recv(msg: Incoming) returns (r: Result<Answer, WsError>)
      modifies this
      ensures (state, r) == Step(old(state), Op.Recv(msg))
    {
      if state == Closed || state == Closing {
        return Err(ClosedError);
      }
      if msg.mtype == Some("websocket.disconnect") {
        state := Closed;
        return Err(ClosedError);
      } else if msg.mtype == Some("websocket.connect") {
        state := Connected;
      }
      return Ok(Received(msg));
    }

    /** `send(message)` with the message's type. */
    method Send(mtype: string) returns (r: Result<Answer, WsError>)
      ensures (state, r) == Step(state, Op.Send(mtype))
    {
      if state == Closed {
        return Err(ClosedError);
      }
      if mtype !in AllowedTypes(state) {
        return Err(TypeRefused(mtype));
      }
      return Ok(Done);
    }

    /** `connect()`. */
    method Connect(msg: Incoming) returns (r: Result<Answer, WsError>)
      modifies this
      ensures (state, r) == Step(old(state), Op.Connect(msg))
    {
      var e := Guard([ClientConnecting], true);
      if e.Some? {
        return Err(e.value);
      }
      state := Connecting;
      r := Recv(msg);
    }

    /** `accept()`. */
    method Accept() returns (r: Result<Answer, WsError>)
      modifies this
      ensures (state, r) == Step(old(state), Op.Accept)
    {
      var e := Guard([Connected], true);
      if e.Some? {
        return Err(e.value);
      }
      state := Accepting;
      r := Send("websocket.accept");
      if r.Err? {
        return;
      }
      state := Accepted;
    }

    /** `recv_text()`: the `text` key, or "". */
    method RecvText(msg: Incoming) returns (r: Result<Answer, WsError>)
      modifies this
      ensures (state, r) == Step(old(state), Op.RecvText(msg))
    {
      var e := Guard([Accepted], true);
      if e.Some? {
        return Err(e.value);
      }
      r := Recv(msg);
      if r.Ok? {
        r := Ok(Text(if msg.text.Some? then msg.text.value else ""));
      }
    }

    /** `recv_bytes()`: the `bytes` key, or b"". */
    method RecvBytes(msg: Incoming) returns (r: Result<Answer, WsError>)
      modifies this
      ensures (state, r) == Step(old(state), Op.RecvBytes(msg))
    {
      var e := Guard([Accepted], true);
      if e.Some? {
        return Err(e.value);
      }
      r := Recv(msg);
      if r.Ok? {
        r := Ok(Binary(if msg.data.Some? then msg.data.value else []));
      }
    }

    /** `close()`. */
    method Close() returns (r: Result<Answer, WsError>)
      modifies this
      ensures (state, r) == Step(old(state), Op.Close)
    {
      var e := Guard([Closed, Closing], false);
      if e.Some? {
        return Err(e.value);
      }
      state := Closing;
      r := Send("websocket.close");
      if r.Err? {
        return;
      }
      state := Closed;
    }
  }
}
