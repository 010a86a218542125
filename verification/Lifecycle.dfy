/**
 * The operations of UDPSocket, DatagramIPCSocket and IPCServerSocket as functions of the host, the
 * object's fields and the kernel's answers. The classes of the same names are proved to compute them.
 */
module Lifecycle {
  import opened Basics
  import opened SocketAddresses
  import opened SocketPaths
  import opened Hosts

  /** The fields of a UDPSocket; fd is receiveSocket. */
  datatype UdpState = UdpState(fd: int, bound: bool, protocolVersion: Port, listeningPort: Option<Port>)

  /** The fields of a DatagramIPCSocket; fd is receiveSocket. */
  datatype DatagramState = DatagramState(fd: int, bound: bool, socketPath: Option<Bytes>)

  /** The fields of an IPCServerSocket; fd is socket. */
  datatype ServerState = ServerState(fd: int, path: Bytes)

  const NEW_UDP := UdpState(INVALID, false, ANY, None)
  const NEW_DATAGRAM := DatagramState(INVALID, false, None)

  /** How the kernel answers the calls of one bind. */
  datatype Answers = Answers(
    socketOk: bool,             // socket() returns a descriptor
    bindOk: bool,               // ::bind() is not refused for reasons of its own
    sockName: Option<SocketAddress>, // what getsockname() reports, if it succeeds
    listenOk: bool,             // listen() succeeds
    overrideRemoveOk: bool,     // remove() before the bind succeeds, given that the file exists
    closeRemoveOk: bool)        // remove() within close() succeeds, given that the file exists

  /** What an operation leaves behind and gives its caller. */
  datatype Done<+S, +T> = Done(host: Host, sock: S, result: Result<T>)

  // ---- UDPSocket ----------------------------------------------------------------------------

  function UdpClose(k: Host, u: UdpState): (Host, UdpState) {
    (CloseSocket(k, u.fd), u.(fd := INVALID, bound := false, listeningPort := None))
  }

  /** std::optional::value() */
  function ValueOf<T>(o: Option<T>): Result<T> {
    if o.Some? then Success(o.value) else Failure(BadOptionalAccess)
  }

  function InitialiseListeningPort(k: Host, u: UdpState, sockName: Option<SocketAddress>): Done<UdpState, ()> {
    var code := if sockName.Some? then 0 else -1;
    if code != 0 && sockName.None? then
      var (k1, u1) := UdpClose(k, u);
      Done(k1, u1, Failure(BindingException))
    else
      match ValueOf(sockName)
      case Failure(e) => Done(k, u, Failure(e))
      case Success(address) => Done(k, u.(listeningPort := Some(GetPortNumber(address))), Success(()))
  }

  /** UDPSocket::bind. The new descriptor replaces the old one before anything is closed. */
  function UdpBind(k: Host, u: UdpState, address: Option<SocketAddress>, a: Answers)
    : Done<UdpState, (int, SocketAddress)>
  {
    if address.None? then Done(k, u, Failure(BindingException)) else
      var (k1, h) := NewSocket(k, a.socketOk);
      var u1 := u.(protocolVersion := Family(address.value), fd := h);
      if h == INVALID then Done(k1, u1, Failure(SocketException)) else
        var (k2, u2) := if u1.bound then UdpClose(k1, u1) else (k1, u1);
        var code := if u2.fd in k2.open && a.bindOk then 0 else -1;
        var u3 := u2.(bound := code != -1);
        if !u3.bound then Done(k2, u3, Success((code, ZERO_ADDRESS))) else
          var d := InitialiseListeningPort(k2, u3, a.sockName);
          if d.result.Failure? then Done(d.host, d.sock, Failure(d.result.error)) else
            match ValueOf(d.sock.listeningPort)
            case Failure(e) => Done(d.host, d.sock, Failure(e))
            case Success(port) => Done(d.host, d.sock, Success((code, WithPort(address.value, port))))
  }

  // ---- DatagramIPCSocket --------------------------------------------------------------------

  function DatagramClose(k: Host, s: DatagramState, removeOk: bool): (Host, DatagramState) {
    var k1 := CloseSocket(k, s.fd);
    var k2 := if s.bound && s.socketPath.Some? then RemovePath(k1, s.socketPath.value, removeOk) else k1;
    (k2, s.(fd := INVALID, socketPath := None, bound := false))
  }

  /** DatagramIPCSocket::bind. */
  function DatagramBind(k: Host, s: DatagramState, override: bool, path: Option<Bytes>, a: Answers)
    : Done<DatagramState, (int, Bytes)>
  {
    if path.None? then Done(k, s, Failure(BindingException)) else
      var p := Truncate(path.value);
      var k0 := if override then RemovePath(k, p, a.overrideRemoveOk) else k;
      var (k1, h) := NewSocket(k0, a.socketOk);
      var s1 := s.(fd := h);
      if h == INVALID then Done(k1, s1, Failure(SocketException)) else
        var (k2, s2) := if s1.bound then DatagramClose(k1, s1, a.closeRemoveOk) else (k1, s1);
        var (k3, code) := BindPath(k2, s2.fd, SunPath(p), a.bindOk);
        var s3 := s2.(bound := code != -1);
        if !s3.bound then Done(k3, s3, Success((code, []))) else
          var s4 := s3.(socketPath := Some(p));
          match ValueOf(s4.socketPath)
          case Failure(e) => Done(k3, s4, Failure(e))
          case Success(value) => Done(k3, s4, Success((code, value)))
  }

  /** DatagramIPCSocket::sendTo: a fresh descriptor for one datagram. */
  function DatagramSend(k: Host, path: Bytes, message: Bytes, socketOk: bool, sendOk: bool): (Host, int) {
    var (k1, temp) := NewSocket(k, socketOk);
    if temp == INVALID then (k1, -2) else
      match Route(k1, SunPath(Truncate(path)))
      case Some(h) =>
        if !sendOk then (CloseSocket(k1, temp), -1)
        else (CloseSocket(Deliver(k1, h, Packet(ZERO_ADDRESS, message)), temp), |message|)
      case None => (CloseSocket(k1, temp), -1)
  }

  /** Where on this host the network delivers a UDP datagram, and the sender it shows there. */
  datatype Delivery = Delivery(h: int, from: SocketAddress)

  /** UDPSocket::sendTo to an address: a fresh descriptor for one datagram, which the network may deliver here. */
  function UdpSend(k: Host, delivery: Option<Delivery>, message: Bytes, socketOk: bool, sendOk: bool): (Host, int) {
    var (k1, temp) := NewSocket(k, socketOk);
    if temp == INVALID then (k1, -2)
    else if !sendOk then (CloseSocket(k1, temp), -1)
    else
      var k2 := if delivery.Some? then Deliver(k1, delivery.value.h, Packet(delivery.value.from, message)) else k1;
      (CloseSocket(k2, temp), |message|)
  }

  // ---- Receiving ----------------------------------------------------------------------------

  /**
   * What receiveFrom hands over: the string, if it is not empty, the code of recvfrom(), and the
   * sender's address or, from a DatagramIPCSocket, its own path.
   */
  datatype Receipt = Receipt(data: Option<Bytes>, code: int, from: Bytes)

  function CutToReceived(buffer: Bytes, code: int, length: int): Option<Bytes>
    requires code <= |buffer| == length
  {
    var data := if 0 <= code < length then buffer[..code] else buffer;
    if |data| == 0 then None else Some(data)
  }

  /** UDPSocket::receiveFrom(length), on an object with the given descriptor. */
  function ReceiveString(k: Host, fd: int, bound: bool, length: int, ok: bool): (Host, Result<Receipt>) {
    if length < 0 then (k, Failure(LengthError)) else
      if !bound || length == 0 then
        (k, Success(Receipt(CutToReceived(ZeroBytes(length), -1, length), -1, ZERO_ADDRESS)))
      else
        var (k1, code, packet) := RecvFrom(k, fd, length, ok);
        var buffer := packet.data + ZeroBytes(length - |packet.data|);
        (k1, Success(Receipt(CutToReceived(buffer, code, length), code, packet.from)))
  }

  /** DatagramIPCSocket::receiveFrom(length), which names the socket's own path once it has called the kernel. */
  function DatagramReceive(k: Host, s: DatagramState, length: int, ok: bool): (Host, Result<Receipt>) {
    var (k1, r) := ReceiveString(k, s.fd, s.bound, length, ok);
    if r.Failure? then (k1, r)
    else if !s.bound || length == 0 then (k1, Success(r.value.(from := [])))
    else
      match ValueOf(s.socketPath)
      case Failure(e) => (k1, Failure(e))
      case Success(path) => (k1, Success(r.value.(from := path)))
  }

  // ---- IPCServerSocket ----------------------------------------------------------------------

  function ServerClose(k: Host, s: ServerState, removeOk: bool): (Host, ServerState) {
    (RemovePath(CloseSocket(k, s.fd), s.path, removeOk), s.(fd := INVALID))
  }

  /** IPCServerSocket::constructSocket once it has its socket: bind and listen, or close and throw. */
  function ServeOn(k: Host, s: ServerState, a: Answers): Done<ServerState, ()> {
    var (k1, code) := BindPath(k, s.fd, SunPath(s.path), a.bindOk);
    if code == -1 then
      var (k2, s2) := ServerClose(k1, s, a.closeRemoveOk);
      Done(k2, s2, Failure(BindingException))
    else if !a.listenOk then
      var (k2, s2) := ServerClose(k1, s, a.closeRemoveOk);
      Done(k2, s2, Failure(SocketException))
    else
      Done(k1, s, Success(()))
  }

  /** IPCServerSocket::constructSocket. */
  function Serve(k: Host, path: Bytes, override: bool, a: Answers): Done<ServerState, ()> {
    var p := Truncate(path);
    var k0 := if override then RemovePath(k, p, a.overrideRemoveOk) else k;
    var (k1, h) := NewSocket(k0, a.socketOk);
    var s := ServerState(h, p);
    if h == INVALID then Done(k1, s, Failure(SocketException)) else ServeOn(k1, s, a)
  }
}
