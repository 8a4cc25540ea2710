/** `lib/socket.ts`: the browser's single socket.io connection and the guarded emitters.

    The socket.io client is foreign code. A `ClientSocket` keeps what this file reads and
    causes: the token it was opened with, its `connected` flag (set by the transport) and the
    append-only log of the events emitted on it. */
module SocketClient {
  import opened Common
  import opened UiTypes

  /** The body of an emitted event. */
  datatype WirePayload =
    | NoPayload
    | OtherUser(otherUserId: JsId)
    | PublicContent(content: string)
    | PrivateContent(recipientId: JsId, text: string)
    | ChatRef(chatId: JsId)

  datatype WireEvent = WireEvent(name: string, payload: WirePayload)

  class ClientSocket {
    /** The `token` query parameter the connection was opened with. */
    const token: Option<string>
    var connected: bool
    var log: seq<WireEvent>

    /** `io(SOCKET_URL, { query: { token } })`: not yet connected, nothing emitted. */
    constructor (token: Option<string>)
      ensures this.token == token && !connected && log == []
    {
      this.token := token;
      connected := false;
      log := [];
    }

    /** The transport reporting that the connection is up or down. */
    method SetConnected(up: bool)
      modifies this`connected
      ensures connected == up
    {
      connected := up;
    }

    /** `socket.emit(name, payload)`. */
    method Emit(e: WireEvent)
      modifies this`log
      ensures log == old(log) + [e]
    {
      log := log + [e];
    }

    /** `socket.disconnect()`. */
    method Disconnect()
      modifies this`connected
      ensures !connected
    {
      connected := false;
    }
  }

  /** The log after an emitter ran: one more event when the socket is connected, the same log
      otherwise. */
  function AfterEmit(connected: bool, log: seq<WireEvent>, e: WireEvent): (r: seq<WireEvent>)
    ensures connected ==> |r| == |log| + 1 && r[..|log|] == log && r[|log|] == e
    ensures !connected ==> r == log
  {
    if connected then log + [e] else log
  }

  /** Emitting nothing when disconnected, and exactly the event when connected: whatever
      sequence of emitters runs while the socket is down leaves the log as it was. */
  lemma {:induction false} DisconnectedEmitsNothing(log: seq<WireEvent>, es: seq<WireEvent>)
    ensures EmitAll(false, log, es) == log
  {
    if es != [] {
      DisconnectedEmitsNothing(log, es[..|es| - 1]);
    }
  }

  /** The log after each event of `es` went through an emitter, in order. */
  function EmitAll(connected: bool, log: seq<WireEvent>, es: seq<WireEvent>): (r: seq<WireEvent>)
    ensures connected ==> r == log + es
  {
    if es == [] then log
    else AfterEmit(connected, EmitAll(connected, log, es[..|es| - 1]), es[|es| - 1])
  }

  /** The module-level `socket` variable: `null` or the one connection. */
  class SocketManager {
    var socket: ClientSocket?

    constructor ()
      ensures socket == null
    {
      socket := null;
    }

    /** `initializeSocket`: opens a connection with the stored token only when there is none;
        otherwise returns the existing one and creates nothing. */
    method InitializeSocket(storedToken: Option<string>) returns (s: ClientSocket)
      modifies this`socket
      ensures old(socket) != null ==> s == old(socket) && socket == s
      ensures old(socket) == null ==>
        fresh(s) && socket == s && s.token == storedToken && !s.connected && s.log == []
    {
      if socket == null {
        socket := new ClientSocket(storedToken);
      }
      s := socket;
    }

    /** `getSocket`: the current connection, `null` once disconnected. */
    method GetSocket() returns (s: ClientSocket?)
      ensures s == socket
    {
      s := socket;
    }

    /** `disconnectSocket`: disconnects and forgets an existing connection; a no-op without
        one. */
    method DisconnectSocket()
      modifies this`socket, socket
      ensures socket == null
      ensures old(socket) != null ==> !old(socket).connected && old(socket).log == old(socket.log)
    {
      if socket != null {
        socket.Disconnect();
        socket := null;
      }
    }

    /** The guard every emitter runs first: `socket?.connected`. */
    method EmitIfConnected(e: WireEvent)
      modifies socket
      ensures socket != null ==> socket.connected == old(socket.connected)
      ensures socket != null ==> socket.log == AfterEmit(old(socket.connected), old(socket.log), e)
    {
      if socket != null && socket.connected {
        socket.Emit(e);
      }
    }

    /** `joinPublicChat`. */
    method JoinPublicChat()
      modifies socket
      ensures socket != null ==> socket.connected == old(socket.connected)
      ensures socket != null ==>
        socket.log == AfterEmit(old(socket.connected), old(socket.log), WireEvent("join_public", NoPayload))
    {
      EmitIfConnected(WireEvent("join_public", NoPayload));
    }

    /** `leavePublicChat`. */
    method LeavePublicChat()
      modifies socket
      ensures socket != null ==> socket.connected == old(socket.connected)
      ensures socket != null ==>
        socket.log == AfterEmit(old(socket.connected), old(socket.log), WireEvent("leave_public", NoPayload))
    {
      EmitIfConnected(WireEvent("leave_public", NoPayload));
    }

    /** `joinPrivateChat`. */
    method JoinPrivateChat(otherUserId: JsId)
      modifies socket
      ensures socket != null ==> socket.connected == old(socket.connected)
      ensures socket != null ==>
        socket.log == AfterEmit(old(socket.connected), old(socket.log),
                                WireEvent("join_private", OtherUser(otherUserId)))
    {
      EmitIfConnected(WireEvent("join_private", OtherUser(otherUserId)));
    }

    /** `leavePrivateChat`. */
    method LeavePrivateChat(otherUserId: JsId)
      modifies socket
      ensures socket != null ==> socket.connected == old(socket.connected)
      ensures socket != null ==>
        socket.log == AfterEmit(old(socket.connected), old(socket.log),
                                WireEvent("leave_private", OtherUser(otherUserId)))
    {
      EmitIfConnected(WireEvent("leave_private", OtherUser(otherUserId)));
    }

    /** `sendPublicMessage`. */
    method SendPublicMessage(content: string)
      modifies socket
      ensures socket != null ==> socket.connected == old(socket.connected)
      ensures socket != null ==>
        socket.log == AfterEmit(old(socket.connected), old(socket.log),
                                WireEvent("send_public_message", PublicContent(content)))
    {
      EmitIfConnected(WireEvent("send_public_message", PublicContent(content)));
    }

    /** `sendPrivateMessage`. */
    method SendPrivateMessage(otherUserId: JsId, content: string)
      modifies socket
      ensures socket != null ==> socket.connected == old(socket.connected)
      ensures socket != null ==>
        socket.log == AfterEmit(old(socket.connected), old(socket.log),
                                WireEvent("send_private_message", PrivateContent(otherUserId, content)))
    {
      EmitIfConnected(WireEvent("send_private_message", PrivateContent(otherUserId, content)));
    }

    /** `getOnlineUsers`. */
    method GetOnlineUsers()
      modifies socket
      ensures socket != null ==> socket.connected == old(socket.connected)
      ensures socket != null ==>
        socket.log == AfterEmit(old(socket.connected), old(socket.log), WireEvent("get_online_users", NoPayload))
    {
      EmitIfConnected(WireEvent("get_online_users", NoPayload));
    }

    /** `markChatAsRead`. */
    method MarkChatAsRead(chatId: JsId)
      modifies socket
      ensures socket != null ==> socket.connected == old(socket.connected)
      ensures socket != null ==>
        socket.log == AfterEmit(old(socket.connected), old(socket.log), WireEvent("mark_chat_read", ChatRef(chatId)))
    {
      EmitIfConnected(WireEvent("mark_chat_read", ChatRef(chatId)));
    }
  }

  /** After a teardown, the next `initializeSocket` opens a new connection with the token
      stored at that moment, and nothing reaches the old one any more. */
  method Reconnect(m: SocketManager, tokenNow: Option<string>) returns (s: ClientSocket)
    modifies m, m.socket
    ensures fresh(s) && m.socket == s && s.token == tokenNow && !s.connected && s.log == []
    ensures old(m.socket) != null ==> s != old(m.socket) && !old(m.socket).connected
  {
    m.DisconnectSocket();
    s := m.InitializeSocket(tokenNow);
  }
}
