/**
 * The `java.net` front-end: server sockets whose `accept` takes the next
 * connection from an engine listener (or, in the older API, a tunnel) and binds
 * it into a fresh socket, and the socket implementation that derives the
 * peer address from the connection and builds the stream adapters.
 */
module Sockets {
  import opened Exceptions
  import opened Connections
  import opened Streams
  import Addresses
  import NativeGlue

  /**
   * An engine listener (`Listener`) or, in the older API, a tunnel (`Tunnel`):
   * each `accept` takes the next connection the engine reports.
   */
  class Listener {
    /** How many times `accept` has been called. */
    var acceptCalls: nat

    constructor()
      ensures acceptCalls == 0
    {
      acceptCalls := 0;
    }

    method Accept(next: NativeGlue.EngineNext<Connection>) returns (r: Result<Connection>)
      modifies this
      ensures acceptCalls == old(acceptCalls) + 1
      ensures r == NativeGlue.AcceptResult(next)
    {
      acceptCalls := acceptCalls + 1;
      r := NativeGlue.AcceptResult(next);
    }
  }

  class ConnectionSocketImpl {
    var connection: Connection?
    /** `SocketImpl.address`, kept as the host text it was built from; empty until bound. */
    var address: Optional<string>
    /** `SocketImpl.port`; 0 until bound. */
    var port: int

    constructor()
      ensures connection == null && address == Empty && port == 0
    {
      connection, address, port := null, Empty, 0;
    }

    /**
     * The state `setConnection(c)` leaves: the connection is stored first, so it
     * stays stored when the address does not parse; address and port then change
     * only on success.
     */
    ghost predicate BoundTo(c: Connection, prevAddress: Optional<string>, prevPort: int, r: Outcome)
      reads this
    {
      connection == c &&
      match Addresses.InetAddress(c.remoteAddr)
      case Ok(a) => r == Pass && address == Of(a.host) && port == a.port
      case Err(e) => r == Fail(e) && address == prevAddress && port == prevPort
    }

    method SetConnection(c: Connection) returns (r: Outcome)
      modifies this
      ensures BoundTo(c, old(address), old(port), r)
    {
      connection := c;
      var addr := Addresses.InetAddress(c.remoteAddr);
      if addr.Err? {
        return Fail(addr.exc);
      }
      address := Of(addr.value.host);
      port := addr.value.port;
      r := Pass;
    }

    /** `getInputStream()`: every call builds a new stream with its own empty 1024-byte buffer. */
    method GetInputStream() returns (s: ConnectionInputStream)
      requires connection != null
      ensures fresh(s) && fresh(s.buffer) && fresh(s.buffer.data)
      ensures s.connection == connection && s.Valid()
      ensures s.buffer.data.Length == 1024 && !s.buffer.HasRemaining()
    {
      s := new ConnectionInputStream(connection, 1024);
    }

    /** `getOutputStream()`: every call builds a new stream with its own empty 1024-byte buffer. */
    method GetOutputStream() returns (s: ConnectionOutputStream)
      requires connection != null
      ensures fresh(s) && fresh(s.buffer) && fresh(s.buffer.data)
      ensures s.connection == connection && s.Valid()
      ensures s.buffer.data.Length == 1024 && s.Retained() == []
    {
      s := new ConnectionOutputStream(connection, 1024);
    }
  }

  /** A `SocketImpl` reference as `accept` receives it: ours, or any other implementation. */
  datatype SocketImplRef = ConnectionImpl(impl: ConnectionSocketImpl) | OtherImpl

  function ImplFrame(s: SocketImplRef): set<object>
  {
    if s.ConnectionImpl? then {s.impl} else {}
  }

  /** A fresh socket over a fresh, unbound `ConnectionSocketImpl`. */
  class ConnectionSocket {
    const impl: ConnectionSocketImpl

    constructor()
      ensures fresh(impl) && impl.connection == null && impl.address == Empty && impl.port == 0
    {
      impl := new ConnectionSocketImpl();
    }
  }

  class ListenerSocketImpl {
    const listener: Listener

    constructor(listener: Listener)
      ensures this.listener == listener
    {
      this.listener := listener;
    }

    /** `accept(s)`: the cast comes first, then one `listener.accept()`, then `setConnection`. */
    method Accept(s: SocketImplRef, next: NativeGlue.EngineNext<Connection>) returns (r: Outcome)
      modifies listener, ImplFrame(s)
      ensures s.OtherImpl? ==> r == Fail(ClassCast) && listener.acceptCalls == old(listener.acceptCalls)
      ensures s.ConnectionImpl? ==> listener.acceptCalls == old(listener.acceptCalls) + 1
      ensures s.ConnectionImpl? ==>
        match NativeGlue.AcceptResult(next)
        case Err(e) => r == Fail(e) && unchanged(s.impl)
        case Ok(c) => s.impl.BoundTo(c, old(s.impl.address), old(s.impl.port), r)
    {
      if s.OtherImpl? {
        return Fail(ClassCast);
      }
      var csi := s.impl;
      var c := listener.Accept(next);
      if c.Err? {
        return Fail(c.exc);
      }
      r := csi.SetConnection(c.value);
    }
  }

  class ListenerServerSocket {
    const impl: ListenerSocketImpl
    /** `isClosed()`; closing is not modelled beyond this flag. */
    var closed: bool

    constructor(listener: Listener)
      ensures fresh(impl) && impl.listener == listener && !closed
    {
      impl := new ListenerSocketImpl(listener);
      closed := false;
    }

    /**
     * `accept()`: a closed socket fails before anything else; otherwise one new
     * socket is created and bound through one `listener.accept()`.
     */
    method Accept(next: NativeGlue.EngineNext<Connection>) returns (r: Result<ConnectionSocket>)
      modifies impl.listener
      ensures closed ==>
        r == Err(SocketException("Socket is closed")) && impl.listener.acceptCalls == old(impl.listener.acceptCalls)
      ensures !closed ==> impl.listener.acceptCalls == old(impl.listener.acceptCalls) + 1
      ensures !closed ==>
        match NativeGlue.AcceptResult(next)
        case Err(e) => r == Err(e)
        case Ok(c) =>
          match Addresses.InetAddress(c.remoteAddr)
          case Err(e) => r == Err(e)
          case Ok(a) =>
            r.Ok? && fresh(r.value) && fresh(r.value.impl) && r.value.impl.connection == c &&
            r.value.impl.address == Of(a.host) && r.value.impl.port == a.port
    {
      if closed {
        return Err(SocketException("Socket is closed"));
      }
      var s := new ConnectionSocket();
      var a := impl.Accept(ConnectionImpl(s.impl), next);
      if a.Fail? {
        return Err(a.exc);
      }
      r := Ok(s);
    }
  }

  class TunnelSocketImpl {
    const tunnel: Listener

    constructor(tunnel: Listener)
      ensures this.tunnel == tunnel
    {
      this.tunnel := tunnel;
    }

    /** `accept(s)`: the cast comes first, then one `tunnel.accept()`, then `setConnection`. */
    method Accept(s: SocketImplRef, next: NativeGlue.EngineNext<Connection>) returns (r: Outcome)
      modifies tunnel, ImplFrame(s)
      ensures s.OtherImpl? ==> r == Fail(ClassCast) && tunnel.acceptCalls == old(tunnel.acceptCalls)
      ensures s.ConnectionImpl? ==> tunnel.acceptCalls == old(tunnel.acceptCalls) + 1
      ensures s.ConnectionImpl? ==>
        match NativeGlue.AcceptResult(next)
        case Err(e) => r == Fail(e) && unchanged(s.impl)
        case Ok(c) => s.impl.BoundTo(c, old(s.impl.address), old(s.impl.port), r)
    {
      if s.OtherImpl? {
        return Fail(ClassCast);
      }
      var csi := s.impl;
      var c := tunnel.Accept(next);
      if c.Err? {
        return Fail(c.exc);
      }
      r := csi.SetConnection(c.value);
    }
  }

  class TunnelServerSocket {
    const impl: TunnelSocketImpl
    /** `isClosed()`; closing is not modelled beyond this flag. */
    var closed: bool

    constructor(tunnel: Listener)
      ensures fresh(impl) && impl.tunnel == tunnel && !closed
    {
      impl := new TunnelSocketImpl(tunnel);
      closed := false;
    }

    /**
     * `accept()`: a closed socket fails before anything else; otherwise one new
     * socket is created and bound through one `tunnel.accept()`.
     */
    method Accept(next: NativeGlue.EngineNext<Connection>) returns (r: Result<ConnectionSocket>)
      modifies impl.tunnel
      ensures closed ==>
        r == Err(SocketException("Socket is closed")) && impl.tunnel.acceptCalls == old(impl.tunnel.acceptCalls)
      ensures !closed ==> impl.tunnel.acceptCalls == old(impl.tunnel.acceptCalls) + 1
      ensures !closed ==>
        match NativeGlue.AcceptResult(next)
        case Err(e) => r == Err(e)
        case Ok(c) =>
          match Addresses.InetAddress(c.remoteAddr)
          case Err(e) => r == Err(e)
          case Ok(a) =>
            r.Ok? && fresh(r.value) && fresh(r.value.impl) && r.value.impl.connection == c &&
            r.value.impl.address == Of(a.host) && r.value.impl.port == a.port
    {
      if closed {
        return Err(SocketException("Socket is closed"));
      }
      var s := new ConnectionSocket();
      var a := impl.Accept(ConnectionImpl(s.impl), next);
      if a.Fail? {
        return Err(a.exc);
      }
      r := Ok(s);
    }
  }
}
