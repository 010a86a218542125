/**
 * The constructors of TCPSocket, StreamIPCSocket and TCPServerSocket as functions of the host and the
 * kernel's answers. The classes of the same names are proved to compute them.
 */
module Connections {
  import opened Basics
  import opened SocketAddresses
  import opened SocketPaths
  import opened Hosts
  import opened Lifecycle

  /** How the kernel answers socket() and connect() for one address. */
  datatype Attempt = Attempt(socketOk: bool, connectOk: bool)

  predicate Works(t: Attempt) {
    t.socketOk && t.connectOk
  }

  /** The fields of a TCPSocket; fd is socketDescriptor. */
  datatype TcpState = TcpState(
    fd: int,
    hostname: Bytes,
    port: Port,
    protocolVersion: Port,
    serverAddress: SocketAddress)

  const NEW_TCP := TcpState(INVALID, [], 0, ANY, ZERO_ADDRESS)

  /** The loop of TCPSocket::constructSocket over the addresses still to try; attempts beyond the list are refusals. */
  function ConnectLoop(k: Host, c: TcpState, addresses: seq<SocketAddress>, attempts: seq<Attempt>)
    : (d: Done<TcpState, ()>)
    ensures d.result.Failure? ==> d.result.error == SocketException
    decreases |addresses|
  {
    if addresses == [] then Done(k, c, Failure(SocketException)) else
      var t := if attempts == [] then Attempt(false, false) else attempts[0];
      var (k1, h) := NewSocket(k, t.socketOk);
      if h != INVALID && t.connectOk then
        Done(k1, c.(fd := h, protocolVersion := Family(addresses[0]), serverAddress := addresses[0]), Success(()))
      else
        ConnectLoop(CloseSocket(k1, h), c.(fd := INVALID), addresses[1..], if attempts == [] then [] else attempts[1..])
  }

  /**
   * The TCPSocket constructor for one address, which does not close when connect fails; `text` is
   * the address as text, if it has one.
   */
  function ConnectOne(k: Host, address: SocketAddress, text: Option<Bytes>, t: Attempt): Done<TcpState, ()> {
    var hostname := if text.Some? then text.value else [];
    var (k1, h) := NewSocket(k, t.socketOk);
    var c1 := TcpState(h, hostname, GetPortNumber(address), GetInternetProtocolVersion(address), ZERO_ADDRESS);
    if h == INVALID then Done(k1, c1, Failure(SocketException))
    else if t.connectOk then
      Done(k1, c1.(protocolVersion := Family(address), serverAddress := address), Success(()))
    else Done(k1, c1, Failure(SocketException))
  }

  /** The fields of a StreamIPCSocket; fd is socket. */
  datatype IpcState = IpcState(fd: int, path: Bytes)

  /** StreamIPCSocket::constructSocket, which does not close when connect fails either. */
  function IpcConnect(k: Host, path: Bytes, t: Attempt): Done<IpcState, ()> {
    var p := Truncate(path);
    var (k1, h) := NewSocket(k, t.socketOk);
    if h != INVALID && t.connectOk && Route(k1, SunPath(p)).Some?
    then Done(k1, IpcState(h, p), Success(()))
    else Done(k1, IpcState(h, p), Failure(SocketException))
  }

  /** The fields of a TCPServerSocket; fd is socketDescriptor. */
  datatype TcpServerState = TcpServerState(port: Port, protocolVersion: Port, serverAddress: SocketAddress, fd: int)

  /** How the resolver and the kernel answer one server construction. */
  datatype TcpAnswers = TcpAnswers(
    resolveCode: int,
    resolved: seq<SocketAddress>,
    socketOk: bool,
    optionOk: bool, // setsockopt(SO_REUSEADDR)
    bindOk: bool,
    sockName: Option<SocketAddress>,
    listenOk: bool)

  function TcpServerClose(k: Host, v: TcpServerState): (Host, TcpServerState) {
    (CloseSocket(k, v.fd), v.(fd := INVALID))
  }

  function InitialisePort(k: Host, v: TcpServerState, sockName: Option<SocketAddress>): Done<TcpServerState, ()> {
    if sockName.None? then
      var (k1, v1) := TcpServerClose(k, v);
      Done(k1, v1, Failure(BindingException))
    else
      Done(k, v.(port := GetPortNumber(sockName.value)), Success(()))
  }

  /** The end of TCPServerSocket::constructSocket: listen, or close and throw. */
  function Listen(k: Host, v: TcpServerState, listenOk: bool): Done<TcpServerState, ()> {
    if listenOk then Done(k, v, Success(())) else
      var (k1, v1) := TcpServerClose(k, v);
      Done(k1, v1, Failure(SocketException))
  }

  /** TCPServerSocket::constructSocket. */
  function TcpServe(k: Host, v: TcpServerState, a: TcpAnswers): Done<TcpServerState, ()> {
    if a.resolveCode != 0 || a.resolved == [] then Done(k, v, Failure(SocketException)) else
      var address := a.resolved[0];
      var (k1, h) := NewSocket(k, a.socketOk);
      var v1 := TcpServerState(v.port, Family(address), address, h);
      if h == INVALID || !a.optionOk then Done(k1, v1, Failure(SocketException))
      else if !a.bindOk then
        var (k2, v2) := TcpServerClose(k1, v1);
        Done(k2, v2, Failure(BindingException))
      else if v1.port == 0 then
        var d := InitialisePort(k1, v1, a.sockName);
        if d.result.Failure? then d
        else Listen(d.host, d.sock.(serverAddress := WithPort(d.sock.serverAddress, d.sock.port)), a.listenOk)
      else
        Listen(k1, v1, a.listenOk)
  }

  // ---- What the constructors do -------------------------------------------------------------

  function Tried(attempts: seq<Attempt>, i: nat): Attempt {
    if i < |attempts| then attempts[i] else Attempt(false, false)
  }

  /** The host after the loop: the connected descriptor, if any, is all it leaves behind. */
  lemma {:induction false} ConnectLoopEffect(k: Host, c: TcpState, addresses: seq<SocketAddress>,
                                             attempts: seq<Attempt>)
    requires Sound(k) && c.fd == INVALID
    ensures var d := ConnectLoop(k, c, addresses, attempts);
      && Sound(d.host) && d.host.next >= k.next && d.host.paths == k.paths && d.host.inbox == k.inbox
      && (d.result.Success? ==>
            && k.next <= d.sock.fd < d.host.next && d.host.open == k.open + {d.sock.fd}
            && d.sock.hostname == c.hostname && d.sock.port == c.port)
      && (d.result.Failure? ==> d.result == Failure(SocketException) && d.host.open == k.open && d.sock == c)
    decreases |addresses|
  {
    if addresses != [] && !Works(Tried(attempts, 0)) {
      var (k1, h) := NewSocket(k, Tried(attempts, 0).socketOk);
      var k2 := CloseSocket(k1, h);
      assert k2.open == k.open;
      ConnectLoopEffect(k2, c, addresses[1..], if attempts == [] then [] else attempts[1..]);
    }
  }

  /** Candidate i is the first that works, and c is connected to it. */
  ghost predicate ConnectedToFirst(c: TcpState, addresses: seq<SocketAddress>, attempts: seq<Attempt>, i: nat) {
    && i < |addresses| && Works(Tried(attempts, i)) && (forall j :: 0 <= j < i ==> !Works(Tried(attempts, j)))
    && c.serverAddress == addresses[i] && c.protocolVersion == Family(addresses[i])
  }

  lemma {:induction false} ConnectLoopPicks(k: Host, c: TcpState, addresses: seq<SocketAddress>, attempts: seq<Attempt>)
      returns (i: nat)
    ensures var d := ConnectLoop(k, c, addresses, attempts);
      && (d.result.Success? ==> ConnectedToFirst(d.sock, addresses, attempts, i))
      && (d.result.Failure? ==> forall j :: 0 <= j < |addresses| ==> !Works(Tried(attempts, j)))
    decreases |addresses|
  {
    i := 0;
    if addresses != [] && !Works(Tried(attempts, 0)) {
      var (k1, h) := NewSocket(k, Tried(attempts, 0).socketOk);
      var later := if attempts == [] then [] else attempts[1..];
      assert forall j :: 0 < j ==> Tried(attempts, j) == Tried(later, j - 1);
      i := ConnectLoopPicks(CloseSocket(k1, h), c.(fd := INVALID), addresses[1..], later);
      i := i + 1;
    }
  }

  /**
   * The connect loop, for every resolved list and every pattern of failures. It succeeds exactly when
   * some candidate works, and is then connected to the first that does, with family and address from
   * it and the descriptors of all earlier candidates closed. When it throws, nothing it opened is
   * open, and family and address are as before.
   */
  lemma ConnectLoopFindsFirst(k: Host, c: TcpState, addresses: seq<SocketAddress>, attempts: seq<Attempt>)
    requires Sound(k) && c.fd == INVALID
    ensures var d := ConnectLoop(k, c, addresses, attempts);
      && (d.result.Success? <==> exists i :: 0 <= i < |addresses| && Works(Tried(attempts, i)))
      && (d.result.Success? ==>
            && k.next <= d.sock.fd && d.host.open == k.open + {d.sock.fd}
            && d.sock.hostname == c.hostname && d.sock.port == c.port
            && exists i :: 0 <= i < |addresses| && ConnectedToFirst(d.sock, addresses, attempts, i))
      && (d.result.Failure? ==> d.result == Failure(SocketException) && d.host.open == k.open && d.sock == c)
  {
    ConnectLoopEffect(k, c, addresses, attempts);
    var i := ConnectLoopPicks(k, c, addresses, attempts);
  }

  /** The answers let a TCP server construction for this port get as far as listen(). */
  predicate Binds(port: Port, a: TcpAnswers) {
    && a.resolveCode == 0 && a.resolved != [] && a.socketOk && a.optionOk && a.bindOk
    && (port == 0 ==> a.sockName.Some?)
  }

  /**
   * TCP server construction, exactly. On success the port reads back from the stored address: always
   * when the kernel chose it, and otherwise exactly when resolution kept the port asked for. It throws a
   * BindingException when binding or reading back the port fails, and a SocketException before and after.
   */
  lemma {:induction false} TcpServeExactly(k: Host, v: TcpServerState, a: TcpAnswers)
    requires v.fd == INVALID
    ensures var d := TcpServe(k, v, a);
      && (d.result.Success? <==> Binds(v.port, a) && a.listenOk)
      && (d.result == Failure(BindingException) <==>
            && a.resolveCode == 0 && a.resolved != [] && a.socketOk && a.optionOk
            && (!a.bindOk || (v.port == 0 && a.sockName.None?)))
      && (d.result.Failure? ==> d.result.error == BindingException || d.result.error == SocketException)
      && (d.result.Success? ==>
            && d.sock.port == (if v.port == 0 then GetPortNumber(a.sockName.value) else v.port)
            && d.sock.protocolVersion == Family(a.resolved[0]) == Family(d.sock.serverAddress)
            && (forall i :: 4 <= i < SOCKADDR_SIZE ==> d.sock.serverAddress[i] == a.resolved[0][i])
            && (v.port != 0 ==> d.sock.serverAddress == a.resolved[0])
            && (d.sock.port == GetPortNumber(d.sock.serverAddress) <==>
                  v.port == 0 || GetPortNumber(a.resolved[0]) == v.port)
            && d.sock.fd == k.next && d.host.open == k.open + {k.next})
  {
    if a.resolved != [] && a.sockName.Some? {
      PortWriteReadsBack(a.resolved[0], GetPortNumber(a.sockName.value));
    }
  }
}
