/** Programs: sequences of operations on any number of objects over one host. */
module Programs {
  import opened Basics
  import opened SocketAddresses
  import opened Hosts
  import opened Lifecycle
  import opened Connections

  /** An object of the program; of the connected and TCP listening ones only the descriptor matters here. */
  datatype Sock =
    | Udp(udp: UdpState)
    | Datagram(datagram: DatagramState)
    | Server(server: ServerState)
    | Connection(fd: int)
  {
    function Fd(): int {
      match this
      case Udp(u) => u.fd
      case Datagram(d) => d.fd
      case Server(v) => v.fd
      case Connection(h) => h
    }
  }

  function CloseSock(k: Host, s: Sock, removeOk: bool): (Host, Sock) {
    match s
    case Udp(u) => var (k1, u1) := UdpClose(k, u); (k1, Udp(u1))
    case Datagram(d) => var (k1, d1) := DatagramClose(k, d, removeOk); (k1, Datagram(d1))
    case Server(v) => var (k1, v1) := ServerClose(k, v, removeOk); (k1, Server(v1))
    case Connection(h) => (CloseSocket(k, h), Connection(INVALID))
  }

  function ReceiveSock(k: Host, s: Sock, length: int, ok: bool): (Host, Result<Receipt>)
    requires s.Udp? || s.Datagram?
  {
    match s
    case Udp(u) => ReceiveString(k, u.fd, u.bound, length, ok)
    case Datagram(d) => DatagramReceive(k, d, length, ok)
  }

  datatype World = World(host: Host, socks: seq<Sock>)

  datatype Op =
    | NewUdp
    | NewDatagram
    | BindUdp(i: nat, address: Option<SocketAddress>, answers: Answers)
    | BindDatagram(i: nat, override: bool, path: Option<Bytes>, answers: Answers)
    | MakeServer(serverPath: Bytes, override: bool, answers: Answers)
    | ConnectTcp(addresses: seq<SocketAddress>, attempts: seq<Attempt>)
    | ConnectAddress(remote: SocketAddress, text: Option<Bytes>, attempt: Attempt)
    | ConnectIpc(remotePath: Bytes, attempt: Attempt)
    | ListenTcp(port: Port, version: Port, tcpAnswers: TcpAnswers)
    | Close(i: nat, removeOk: bool)
    | SendToPath(path: Option<Bytes>, message: Bytes, socketOk: bool, ok: bool)
    | SendUdp(delivery: Option<Delivery>, message: Bytes, socketOk: bool, ok: bool)
    | Receive(i: nat, length: int, ok: bool)
    | Arrive(h: int, packet: Packet) // a datagram from outside the program

  /** What a caller sees of an operation. */
  datatype Reply =
    | Silent
    | Threw(error: Exception)
    | BoundTo(code: int)
    | Got(receipt: Receipt)

  predicate UdpAt(w: World, i: nat) { i < |w.socks| && w.socks[i].Udp? }
  predicate DatagramAt(w: World, i: nat) { i < |w.socks| && w.socks[i].Datagram? }

  /** A constructor's outcome: the object when it returned, no object when it threw. */
  function Constructed(w: World, k1: Host, r: Result<()>, s: Sock): (World, Reply) {
    if r.Failure? then (w.(host := k1), Threw(r.error)) else (World(k1, w.socks + [s]), Silent)
  }

  /** One operation; one on an object that does not exist does nothing. */
  function Step(w: World, op: Op): (World, Reply) {
    match op
    case NewUdp => (w.(socks := w.socks + [Udp(NEW_UDP)]), Silent)
    case NewDatagram => (w.(socks := w.socks + [Datagram(NEW_DATAGRAM)]), Silent)
    case BindUdp(i, address, a) =>
      if !UdpAt(w, i) then (w, Silent) else
        var d := UdpBind(w.host, w.socks[i].udp, address, a);
        (World(d.host, w.socks[i := Udp(d.sock)]),
         if d.result.Failure? then Threw(d.result.error) else BoundTo(d.result.value.0))
    case BindDatagram(i, override, path, a) =>
      if !DatagramAt(w, i) then (w, Silent) else
        var d := DatagramBind(w.host, w.socks[i].datagram, override, path, a);
        (World(d.host, w.socks[i := Datagram(d.sock)]),
         if d.result.Failure? then Threw(d.result.error) else BoundTo(d.result.value.0))
    case MakeServer(path, override, a) =>
      var d := Serve(w.host, path, override, a);
      Constructed(w, d.host, d.result, Server(d.sock))
    case ConnectTcp(addresses, attempts) =>
      var d := ConnectLoop(w.host, NEW_TCP, addresses, attempts);
      Constructed(w, d.host, d.result, Connection(d.sock.fd))
    case ConnectAddress(address, text, t) =>
      var d := ConnectOne(w.host, address, text, t);
      Constructed(w, d.host, d.result, Connection(d.sock.fd))
    case ConnectIpc(path, t) =>
      var d := IpcConnect(w.host, path, t);
      Constructed(w, d.host, d.result, Connection(d.sock.fd))
    case ListenTcp(port, version, a) =>
      var d := TcpServe(w.host, TcpServerState(port, version, ZERO_ADDRESS, INVALID), a);
      Constructed(w, d.host, d.result, Connection(d.sock.fd))
    case Close(i, removeOk) =>
      if i >= |w.socks| then (w, Silent) else
        var (k, s) := CloseSock(w.host, w.socks[i], removeOk);
        (World(k, w.socks[i := s]), Silent)
    case SendToPath(path, message, socketOk, ok) =>
      if path.None? then (w, Silent) else
        (w.(host := DatagramSend(w.host, path.value, message, socketOk, ok).0), Silent)
    case SendUdp(delivery, message, socketOk, ok) =>
      (w.(host := UdpSend(w.host, delivery, message, socketOk, ok).0), Silent)
    case Receive(i, length, ok) =>
      if i >= |w.socks| || !(w.socks[i].Udp? || w.socks[i].Datagram?) then (w, Silent) else
        var (k, r) := ReceiveSock(w.host, w.socks[i], length, ok);
        (w.(host := k), if r.Failure? then Threw(r.error) else Got(r.value))
    case Arrive(h, packet) => (w.(host := Deliver(w.host, h, packet)), Silent)
  }

  function RunOps(w: World, ops: seq<Op>): World
    decreases |ops|
  {
    if ops == [] then w else RunOps(Step(w, ops[0]).0, ops[1..])
  }
}
