/**
 * Over every sequence of operations: which descriptors stay open, who holds them, and when an
 * object's optional fields are present.
 */
module Descriptors {
  import opened Basics
  import opened SocketAddresses
  import opened SocketPaths
  import opened Hosts
  import opened Lifecycle
  import opened Connections
  import opened Programs

  /** The objects hold distinct open descriptors. */
  ghost predicate WellFormed(w: World) {
    && Sound(w.host)
    && (forall i :: 0 <= i < |w.socks| && w.socks[i].Fd() != INVALID ==> w.socks[i].Fd() in w.host.open)
    && (forall i, j :: 0 <= i < j < |w.socks| && w.socks[i].Fd() != INVALID ==> w.socks[i].Fd() != w.socks[j].Fd())
  }

  function Held(w: World): set<int> {
    set i | 0 <= i < |w.socks| && w.socks[i].Fd() != INVALID :: w.socks[i].Fd()
  }

  /** Open descriptors no object can reach any more. */
  function Orphans(w: World): set<int> {
    w.host.open - Held(w)
  }

  function Only(fd: int): set<int> {
    if fd == INVALID then {} else {fd}
  }

  // ---- What one operation does to the descriptor table --------------------------------------

  /** A bind or construction: the object ends with a new descriptor or none, and nothing else opens or closes. */
  ghost predicate Rebinds(k: Host, k1: Host, fd1: int) {
    && Sound(k1)
    && k1.next >= k.next
    && (fd1 == INVALID || k.next <= fd1 < k1.next)
    && k1.open == k.open + Only(fd1)
  }

  /** A close: the object's descriptor goes, and nothing else. */
  ghost predicate Releases(k: Host, k1: Host, fd: int) {
    Sound(k1) && k1.next == k.next && k1.open == k.open - {fd}
  }

  lemma RemoveKeepsDescriptors(k: Host, path: Bytes, ok: bool)
    requires Sound(k)
    ensures var k1 := RemovePath(k, path, ok); Sound(k1) && k1.open == k.open && k1.next == k.next
  {
  }

  lemma BindKeepsDescriptors(k: Host, h: int, sunPath: Bytes, ok: bool)
    requires Sound(k)
    ensures var k1 := BindPath(k, h, sunPath, ok).0; Sound(k1) && k1.open == k.open && k1.next == k.next
  {
  }

  lemma UdpBindDescriptors(k: Host, u: UdpState, address: SocketAddress, a: Answers)
    requires Sound(k)
    ensures var d := UdpBind(k, u, Some(address), a); Rebinds(k, d.host, d.sock.fd)
  {
  }

  lemma {:induction false} DatagramBindDescriptors(k: Host, s: DatagramState, override: bool, path: Bytes, a: Answers)
    requires Sound(k)
    ensures var d := DatagramBind(k, s, override, Some(path), a); Rebinds(k, d.host, d.sock.fd)
  {
    var p := Truncate(path);
    var k0 := if override then RemovePath(k, p, a.overrideRemoveOk) else k;
    RemoveKeepsDescriptors(k, p, a.overrideRemoveOk);
    var (k1, h) := NewSocket(k0, a.socketOk);
    var s1 := s.(fd := h);
    if h != INVALID {
      CloseDescriptors(k1, Datagram(s1), a.closeRemoveOk);
      var (k2, s2) := if s1.bound then DatagramClose(k1, s1, a.closeRemoveOk) else (k1, s1);
      BindKeepsDescriptors(k2, s2.fd, SunPath(p), a.bindOk);
    }
  }

  lemma ServeOnDescriptors(k: Host, s: ServerState, a: Answers)
    requires Sound(k)
    ensures var d := ServeOn(k, s, a);
      && Sound(d.host) && d.host.next == k.next
      && d.host.open == (if d.result.Success? then k.open else k.open - {s.fd})
      && (d.result.Success? ==> d.sock == s)
  {
    BindKeepsDescriptors(k, s.fd, SunPath(s.path), a.bindOk);
    CloseDescriptors(BindPath(k, s.fd, SunPath(s.path), a.bindOk).0, Server(s), a.closeRemoveOk);
  }

  lemma {:induction false} ServeDescriptors(k: Host, path: Bytes, override: bool, a: Answers)
    requires Sound(k)
    ensures var d := Serve(k, path, override, a);
      Rebinds(k, d.host, if d.result.Success? then d.sock.fd else INVALID)
  {
    var p := Truncate(path);
    var k0 := if override then RemovePath(k, p, a.overrideRemoveOk) else k;
    RemoveKeepsDescriptors(k, p, a.overrideRemoveOk);
    var (k1, h) := NewSocket(k0, a.socketOk);
    if h != INVALID {
      ServeOnDescriptors(k1, ServerState(h, p), a);
    }
  }

  /** A TCP or stream construction: the same, and names and inboxes are left alone. */
  ghost predicate Builds(k: Host, k1: Host, fd: int) {
    Rebinds(k, k1, fd) && k1.paths == k.paths && k1.inbox == k.inbox
  }

  /** A construction that returns holds the descriptor it opened; one that throws after that leaves it open. */
  ghost predicate ConnectsOrThrows(k: Host, k1: Host, fd: int, result: Result<()>, t: Attempt) {
    && k1.open == k.open + (if t.socketOk then {k.next} else {})
    && fd == (if t.socketOk then k.next else INVALID)
    && (result.Success? ==> Works(t))
    && (result.Failure? ==> result.error == SocketException)
  }

  lemma ConnectOneBuilds(k: Host, address: SocketAddress, text: Option<Bytes>, t: Attempt)
    requires Sound(k)
    ensures var d := ConnectOne(k, address, text, t);
      && Builds(k, d.host, d.sock.fd) && ConnectsOrThrows(k, d.host, d.sock.fd, d.result, t)
      && d.sock.port == GetPortNumber(address) && d.sock.hostname == (if text.Some? then text.value else [])
      && (d.result.Success? <==> Works(t))
      && (d.result.Success? ==> d.sock.serverAddress == address && d.sock.protocolVersion == Family(address))
      && (d.result.Failure? ==>
            d.sock.serverAddress == ZERO_ADDRESS && d.sock.protocolVersion == GetInternetProtocolVersion(address))
  {
  }

  lemma IpcConnectBuilds(k: Host, path: Bytes, t: Attempt)
    requires Sound(k)
    ensures var d := IpcConnect(k, path, t);
      && Builds(k, d.host, d.sock.fd) && ConnectsOrThrows(k, d.host, d.sock.fd, d.result, t)
      && d.sock.path == path[..Min(|path|, SUN_PATH_SIZE)]
      && (d.result.Success? <==> Works(t) && Route(k, SunPath(path)).Some?)
      && Route(k, SunPath(d.sock.path)) == Route(k, SunPath(path))
  {
    SamePathSameAddress(path, Truncate(path));
    TruncateKeepsPrefix(path);
  }

  lemma TcpServeBuilds(k: Host, v: TcpServerState, a: TcpAnswers)
    requires Sound(k) && v.fd == INVALID
    ensures var d := TcpServe(k, v, a);
      && Builds(k, d.host, d.sock.fd)
      && (d.result.Failure? ==>
            var leaks := a.resolveCode == 0 && a.resolved != [] && a.socketOk && !a.optionOk;
            d.sock.fd == if leaks then k.next else INVALID)
      && (d.result.Success? ==> d.sock.fd == k.next)
  {
  }

  lemma CloseDescriptors(k: Host, s: Sock, removeOk: bool)
    requires Sound(k)
    ensures var (k1, s1) := CloseSock(k, s, removeOk); Releases(k, k1, s.Fd()) && s1.Fd() == INVALID
  {
  }

  lemma SendDescriptors(k: Host, path: Bytes, message: Bytes, socketOk: bool, ok: bool)
    requires Sound(k)
    ensures var k1 := DatagramSend(k, path, message, socketOk, ok).0;
      Sound(k1) && k1.open == k.open && k1.next >= k.next
  {
  }

  lemma UdpSendDescriptors(k: Host, delivery: Option<Delivery>, message: Bytes, socketOk: bool, ok: bool)
    requires Sound(k)
    ensures var k1 := UdpSend(k, delivery, message, socketOk, ok).0;
      Sound(k1) && k1.open == k.open && k1.next >= k.next && k1.paths == k.paths
  {
  }

  // ---- What that means for the objects ------------------------------------------------------

  lemma HeldReplaced(w: World, i: nat, k1: Host, s1: Sock)
    requires WellFormed(w) && i < |w.socks| && s1.Fd() !in Held(w)
    ensures Held(World(k1, w.socks[i := s1])) == Held(w) - Only(w.socks[i].Fd()) + Only(s1.Fd())
  {
    var w1 := World(k1, w.socks[i := s1]);
    forall h | h in Held(w1) ensures h in Held(w) - Only(w.socks[i].Fd()) + Only(s1.Fd()) {
      var j :| 0 <= j < |w1.socks| && w1.socks[j].Fd() == h;
      assert j != i ==> w.socks[j].Fd() == h;
    }
    forall h | h in Held(w) - Only(w.socks[i].Fd()) ensures h in Held(w1) {
      var j :| 0 <= j < |w.socks| && w.socks[j].Fd() == h;
      assert w1.socks[j].Fd() == h;
    }
    assert s1.Fd() != INVALID ==> w1.socks[i].Fd() in Held(w1);
  }

  lemma HeldIsOpen(w: World)
    requires WellFormed(w)
    ensures Held(w) <= w.host.open
  {
  }

  lemma AfterBind(w: World, i: nat, k1: Host, s1: Sock)
    requires WellFormed(w) && i < |w.socks| && Rebinds(w.host, k1, s1.Fd())
    ensures var w1 := World(k1, w.socks[i := s1]);
      WellFormed(w1) && Orphans(w1) == Orphans(w) + Only(w.socks[i].Fd())
  {
    HeldIsOpen(w);
    HeldReplaced(w, i, k1, s1);
    assert Only(w.socks[i].Fd()) <= Held(w);
  }

  lemma AfterClose(w: World, i: nat, k1: Host, s1: Sock)
    requires WellFormed(w) && i < |w.socks| && Releases(w.host, k1, w.socks[i].Fd()) && s1.Fd() == INVALID
    ensures var w1 := World(k1, w.socks[i := s1]); WellFormed(w1) && Orphans(w1) == Orphans(w)
  {
    HeldIsOpen(w);
    HeldReplaced(w, i, k1, s1);
    assert Only(w.socks[i].Fd()) <= Held(w);
  }

  lemma AfterConstruction(w: World, k1: Host, s1: Sock)
    requires WellFormed(w) && Rebinds(w.host, k1, s1.Fd())
    ensures var w1 := World(k1, w.socks + [s1]); WellFormed(w1) && Orphans(w1) == Orphans(w)
  {
    HeldIsOpen(w);
    var w1 := World(k1, w.socks + [s1]);
    forall h | h in Held(w1) ensures h in Held(w) + Only(s1.Fd()) {
      var j :| 0 <= j < |w1.socks| && w1.socks[j].Fd() == h;
      assert j < |w.socks| ==> w.socks[j].Fd() == h;
    }
    forall h | h in Held(w) ensures h in Held(w1) {
      var j :| 0 <= j < |w.socks| && w.socks[j].Fd() == h;
      assert w1.socks[j].Fd() == h;
    }
    assert s1.Fd() != INVALID ==> w1.socks[|w.socks|].Fd() in Held(w1);
  }

  lemma AfterHostChange(w: World, k1: Host)
    requires WellFormed(w) && Sound(k1) && k1.open == w.host.open
    ensures var w1 := w.(host := k1); WellFormed(w1) && Orphans(w1) == Orphans(w)
  {
    assert Held(w.(host := k1)) == Held(w);
  }

  /** A construction that threw and left the descriptor fd open. */
  lemma AfterLeak(w: World, k1: Host, fd: int)
    requires WellFormed(w) && Rebinds(w.host, k1, fd)
    ensures var w1 := w.(host := k1);
      WellFormed(w1) && Orphans(w1) == Orphans(w) + Only(fd) && Orphans(w) !! Only(fd)
  {
    HeldIsOpen(w);
    assert Held(w.(host := k1)) == Held(w);
  }

  /**
   * The descriptor an operation makes unreachable: that of an object which binds without having
   * closed it, and that of a constructor which throws after a failed connect or socket option.
   */
  function Orphaned(w: World, op: Op): set<int> {
    match op
    case ConnectAddress(_, _, t) => if t.socketOk && !t.connectOk then {w.host.next} else {}
    case ConnectIpc(path, t) =>
      if t.socketOk && !(t.connectOk && Route(w.host, SunPath(path)).Some?) then {w.host.next} else {}
    case ListenTcp(_, _, a) =>
      if a.resolveCode == 0 && a.resolved != [] && a.socketOk && !a.optionOk then {w.host.next} else {}
    case BindUdp(i, address, _) => if UdpAt(w, i) && address.Some? then Only(w.socks[i].Fd()) else {}
    case BindDatagram(i, _, path, _) => if DatagramAt(w, i) && path.Some? then Only(w.socks[i].Fd()) else {}
    case _ => {}
  }

  /** What an operation may do to descriptors: make those in `lost` unreachable, and nothing else go astray. */
  ghost predicate Accounts(w: World, w1: World, lost: set<int>) {
    WellFormed(w1) && Orphans(w1) == Orphans(w) + lost && Orphans(w) !! lost
  }

  lemma SameWorld(w: World, i: nat)
    requires WellFormed(w) && i < |w.socks|
    ensures World(w.host, w.socks[i := w.socks[i]]) == w && Accounts(w, w, {})
  {
  }

  lemma BindUdpOrphans(w: World, i: nat, address: Option<SocketAddress>, a: Answers)
    requires WellFormed(w) && UdpAt(w, i)
    ensures var op := BindUdp(i, address, a); Accounts(w, Step(w, op).0, Orphaned(w, op))
  {
    var u := w.socks[i].udp;
    if address.Some? {
      var d := UdpBind(w.host, u, address, a);
      UdpBindDescriptors(w.host, u, address.value, a);
      AfterBind(w, i, d.host, Udp(d.sock));
    } else {
      SameWorld(w, i);
    }
  }

  lemma BindDatagramOrphans(w: World, i: nat, override: bool, path: Option<Bytes>, a: Answers)
    requires WellFormed(w) && DatagramAt(w, i)
    ensures var op := BindDatagram(i, override, path, a); Accounts(w, Step(w, op).0, Orphaned(w, op))
  {
    var s := w.socks[i].datagram;
    if path.Some? {
      var d := DatagramBind(w.host, s, override, path, a);
      DatagramBindDescriptors(w.host, s, override, path.value, a);
      AfterBind(w, i, d.host, Datagram(d.sock));
    } else {
      SameWorld(w, i);
    }
  }

  lemma MakeServerOrphans(w: World, path: Bytes, override: bool, a: Answers)
    requires WellFormed(w)
    ensures Accounts(w, Step(w, MakeServer(path, override, a)).0, {})
  {
    ServeDescriptors(w.host, path, override, a);
    var d := Serve(w.host, path, override, a);
    if d.result.Success? {
      AfterConstruction(w, d.host, Server(d.sock));
    } else {
      AfterHostChange(w, d.host);
    }
  }

  lemma ConstructedOrphans(w: World, k1: Host, r: Result<()>, fd: int)
    requires WellFormed(w) && Rebinds(w.host, k1, fd)
    ensures Accounts(w, Constructed(w, k1, r, Connection(fd)).0, if r.Success? then {} else Only(fd))
  {
    if r.Success? {
      AfterConstruction(w, k1, Connection(fd));
    } else {
      AfterLeak(w, k1, fd);
    }
  }

  predicate Connects(op: Op) {
    op.ConnectTcp? || op.ConnectAddress? || op.ConnectIpc? || op.ListenTcp?
  }

  /** What the operation does is a TCP or stream construction with this host, result and descriptor. */
  ghost predicate Constructs(w: World, op: Op, k1: Host, r: Result<()>, fd: int) {
    && Builds(w.host, k1, fd) && Step(w, op) == Constructed(w, k1, r, Connection(fd))
    && Orphaned(w, op) == if r.Success? then {} else Only(fd)
  }

  lemma ConnectTcpConstructs(w: World, addresses: seq<SocketAddress>, attempts: seq<Attempt>)
    requires Sound(w.host)
    ensures var d := ConnectLoop(w.host, NEW_TCP, addresses, attempts);
      Constructs(w, ConnectTcp(addresses, attempts), d.host, d.result, d.sock.fd)
  {
    ConnectLoopEffect(w.host, NEW_TCP, addresses, attempts);
  }

  lemma ConnectAddressConstructs(w: World, address: SocketAddress, text: Option<Bytes>, t: Attempt)
    requires Sound(w.host)
    ensures var d := ConnectOne(w.host, address, text, t);
      Constructs(w, ConnectAddress(address, text, t), d.host, d.result, d.sock.fd)
  {
    ConnectOneBuilds(w.host, address, text, t);
  }

  lemma ConnectIpcConstructs(w: World, path: Bytes, t: Attempt)
    requires Sound(w.host)
    ensures var d := IpcConnect(w.host, path, t);
      Constructs(w, ConnectIpc(path, t), d.host, d.result, d.sock.fd)
  {
    IpcConnectBuilds(w.host, path, t);
  }

  lemma ListenTcpConstructs(w: World, port: Port, version: Port, a: TcpAnswers)
    requires Sound(w.host)
    ensures var d := TcpServe(w.host, TcpServerState(port, version, ZERO_ADDRESS, INVALID), a);
      Constructs(w, ListenTcp(port, version, a), d.host, d.result, d.sock.fd)
  {
    TcpServeBuilds(w.host, TcpServerState(port, version, ZERO_ADDRESS, INVALID), a);
  }

  lemma ConnectConstructs(w: World, op: Op)
    requires Sound(w.host) && Connects(op)
    ensures exists k1, r, fd :: Constructs(w, op, k1, r, fd)
  {
    match op
    case ConnectTcp(addresses, attempts) => ConnectTcpConstructs(w, addresses, attempts);
    case ConnectAddress(address, text, t) => ConnectAddressConstructs(w, address, text, t);
    case ConnectIpc(path, t) => ConnectIpcConstructs(w, path, t);
    case ListenTcp(port, version, a) => ListenTcpConstructs(w, port, version, a);
  }

  lemma ConnectOrphans(w: World, op: Op)
    requires WellFormed(w) && Connects(op)
    ensures Accounts(w, Step(w, op).0, Orphaned(w, op))
  {
    ConnectConstructs(w, op);
    var k1, r, fd :| Constructs(w, op, k1, r, fd);
    ConstructedOrphans(w, k1, r, fd);
  }

  lemma CloseOrphans(w: World, i: nat, removeOk: bool)
    requires WellFormed(w)
    ensures Accounts(w, Step(w, Close(i, removeOk)).0, {})
  {
    if i < |w.socks| {
      CloseDescriptors(w.host, w.socks[i], removeOk);
      var (k, s) := CloseSock(w.host, w.socks[i], removeOk);
      AfterClose(w, i, k, s);
    }
  }

  lemma SendOrphans(w: World, op: Op)
    requires WellFormed(w) && (op.SendToPath? || op.SendUdp?)
    ensures Accounts(w, Step(w, op).0, {})
  {
    if op.SendToPath? && op.path.Some? {
      SendDescriptors(w.host, op.path.value, op.message, op.socketOk, op.ok);
    } else if op.SendUdp? {
      UdpSendDescriptors(w.host, op.delivery, op.message, op.socketOk, op.ok);
    }
    AfterHostChange(w, Step(w, op).0.host);
  }

  lemma ReceiveDescriptors(k: Host, s: Sock, length: int, ok: bool)
    requires Sound(k) && (s.Udp? || s.Datagram?)
    ensures var k1 := ReceiveSock(k, s, length, ok).0; Sound(k1) && k1.open == k.open
  {
  }

  lemma ArrivalDescriptors(w: World, op: Op)
    requires WellFormed(w) && (op.Receive? || op.Arrive?)
    ensures var w1 := Step(w, op).0;
      w1 == w.(host := w1.host) && Sound(w1.host) && w1.host.open == w.host.open
  {
    if op.Receive? && op.i < |w.socks| && (w.socks[op.i].Udp? || w.socks[op.i].Datagram?) {
      ReceiveDescriptors(w.host, w.socks[op.i], op.length, op.ok);
    }
  }

  lemma ArrivalOrphans(w: World, op: Op)
    requires WellFormed(w) && (op.Receive? || op.Arrive?)
    ensures Accounts(w, Step(w, op).0, {})
  {
    ArrivalDescriptors(w, op);
    AfterHostChange(w, Step(w, op).0.host);
  }

  /**
   * A bind that reaches socket creation orphans the descriptor the object held, if it held one,
   * however the rest of the bind goes; three failures of constructors orphan the descriptor they
   * opened; no other operation orphans any.
   */
  lemma StepOrphans(w: World, op: Op)
    requires WellFormed(w)
    ensures Accounts(w, Step(w, op).0, Orphaned(w, op))
  {
    match op
    case NewUdp => AfterConstruction(w, w.host, Udp(NEW_UDP));
    case NewDatagram => AfterConstruction(w, w.host, Datagram(NEW_DATAGRAM));
    case BindUdp(i, address, a) =>
      if UdpAt(w, i) { BindUdpOrphans(w, i, address, a); }
    case BindDatagram(i, override, path, a) =>
      if DatagramAt(w, i) { BindDatagramOrphans(w, i, override, path, a); }
    case MakeServer(path, override, a) => MakeServerOrphans(w, path, override, a);
    case Close(i, removeOk) => CloseOrphans(w, i, removeOk);
    case SendToPath(_, _, _, _) => SendOrphans(w, op);
    case SendUdp(_, _, _, _) => SendOrphans(w, op);
    case Receive(_, _, _) => ArrivalOrphans(w, op);
    case Arrive(_, _) => ArrivalOrphans(w, op);
    case _ => ConnectOrphans(w, op);
  }

  // ---- Whole runs ---------------------------------------------------------------------------

  /** How many descriptors the operations of a run make unreachable. */
  function LostDescriptors(w: World, ops: seq<Op>): nat
    decreases |ops|
  {
    if ops == [] then 0 else |Orphaned(w, ops[0])| + LostDescriptors(Step(w, ops[0]).0, ops[1..])
  }

  /**
   * Exact accounting over every run, whatever the kernel answers: each open descriptor is held by
   * one object or orphaned, each operation with an orphan adds exactly that one, and orphans stay.
   * So nothing leaks if and only if no bind reached socket creation on an object holding a
   * descriptor and no constructor failed in the three ways that leave theirs open.
   */
  lemma {:induction false} RunAccounting(w: World, ops: seq<Op>)
    requires WellFormed(w)
    ensures var w1 := RunOps(w, ops);
      && WellFormed(w1)
      && Orphans(w) <= Orphans(w1)
      && |Orphans(w1)| == |Orphans(w)| + LostDescriptors(w, ops)
      && |w1.host.open| == |Held(w1)| + |Orphans(w1)|
      && (Orphans(w1) == Orphans(w) <==> LostDescriptors(w, ops) == 0)
    decreases |ops|
  {
    if ops != [] {
      StepOrphans(w, ops[0]);
      RunAccounting(Step(w, ops[0]).0, ops[1..]);
    }
    var w1 := RunOps(w, ops);
    HeldIsOpen(w1);
    assert w1.host.open == Held(w1) + Orphans(w1);
    SubsetOfSameSize(Orphans(w), Orphans(w1));
  }

  /**
   * The same for a whole program that starts without objects: the descriptors it has open, beyond
   * those it found open, are one for each object that holds one and one for each lost descriptor.
   */
  lemma ProgramAccounting(k: Host, ops: seq<Op>)
    requires Sound(k)
    ensures var w := RunOps(World(k, []), ops);
      WellFormed(w) && |w.host.open| == |k.open| + |Held(w)| + LostDescriptors(World(k, []), ops)
  {
    var start := World(k, []);
    assert Held(start) == {};
    RunAccounting(start, ops);
  }

  lemma SubsetOfSameSize(a: set<int>, b: set<int>)
    requires a <= b
    ensures a == b <==> |a| == |b|
  {
    assert b == a + (b - a);
  }

  // ---- Optional fields ----------------------------------------------------------------------

  /** The object is bound exactly when its port or path is present. */
  predicate Consistent(s: Sock) {
    match s
    case Udp(u) => u.bound <==> u.listeningPort.Some?
    case Datagram(d) => d.bound <==> d.socketPath.Some?
    case _ => true
  }

  ghost predicate AllConsistent(w: World) {
    forall i :: 0 <= i < |w.socks| ==> Consistent(w.socks[i])
  }

  function Replies(w: World, ops: seq<Op>): seq<Reply>
    decreases |ops|
  {
    if ops == [] then [] else
      var (w1, reply) := Step(w, ops[0]);
      [reply] + Replies(w1, ops[1..])
  }

  lemma UdpBindConsistent(k: Host, u: UdpState, address: Option<SocketAddress>, a: Answers)
    requires Consistent(Udp(u))
    ensures var d := UdpBind(k, u, address, a);
      Consistent(Udp(d.sock)) && d.result != Failure(BadOptionalAccess)
  {
  }

  lemma DatagramBindConsistent(k: Host, s: DatagramState, override: bool, path: Option<Bytes>, a: Answers)
    requires Consistent(Datagram(s))
    ensures var d := DatagramBind(k, s, override, path, a);
      Consistent(Datagram(d.sock)) && d.result != Failure(BadOptionalAccess)
  {
  }

  lemma ConnectConsistent(w: World, op: Op)
    requires AllConsistent(w) && Connects(op)
    ensures var (w1, reply) := Step(w, op); AllConsistent(w1) && reply != Threw(BadOptionalAccess)
  {
  }

  lemma StepConsistent(w: World, op: Op)
    requires AllConsistent(w)
    ensures var (w1, reply) := Step(w, op); AllConsistent(w1) && reply != Threw(BadOptionalAccess)
  {
    match op
    case BindUdp(i, address, a) =>
      if UdpAt(w, i) { UdpBindConsistent(w.host, w.socks[i].udp, address, a); }
    case BindDatagram(i, override, path, a) =>
      if DatagramAt(w, i) { DatagramBindConsistent(w.host, w.socks[i].datagram, override, path, a); }
    case Receive(i, length, ok) =>
      if i < |w.socks| { assert Consistent(w.socks[i]); }
    case ConnectTcp(_, _) => ConnectConsistent(w, op);
    case ConnectAddress(_, _, _) => ConnectConsistent(w, op);
    case ConnectIpc(_, _) => ConnectConsistent(w, op);
    case ListenTcp(_, _, _) => ConnectConsistent(w, op);
    case _ =>
  }

  predicate BoundAt(w: World, i: nat) {
    i < |w.socks| &&
    match w.socks[i]
    case Udp(u) => u.bound
    case Datagram(d) => d.bound
    case _ => false
  }

  /** The code a bind hands back is 0 or -1, and 0 exactly when the object is bound afterwards. */
  lemma BindReplyTellsBound(w: World, op: Op, i: nat)
    requires (op.BindUdp? && op.i == i && UdpAt(w, i)) || (op.BindDatagram? && op.i == i && DatagramAt(w, i))
    ensures var (w1, reply) := Step(w, op);
      match reply
      case BoundTo(code) => if BoundAt(w1, i) then code == 0 else code == -1
      case Threw(_) => BoundAt(w1, i) ==> BoundAt(w, i)
      case _ => false
  {
  }

  /** A constructor that throws makes no object; one that returns makes one, and the others are as they were. */
  lemma ConstructsOrThrows(w: World, op: Op)
    requires op.MakeServer? || Connects(op)
    ensures var (w1, reply) := Step(w, op);
      if reply.Threw? then w1.socks == w.socks
      else |w1.socks| == |w.socks| + 1 && w1.socks[..|w.socks|] == w.socks
  {
  }

  /**
   * Lifecycle invariant over every run, throwing operations included: a UDP socket is bound exactly
   * when its port is present, a datagram IPC socket exactly when its path is, and no unguarded
   * value() of an optional ever fails.
   */
  lemma {:induction false} RunStaysConsistent(w: World, ops: seq<Op>)
    requires AllConsistent(w)
    ensures AllConsistent(RunOps(w, ops))
    ensures forall i :: 0 <= i < |Replies(w, ops)| ==> Replies(w, ops)[i] != Threw(BadOptionalAccess)
    decreases |ops|
  {
    if ops != [] {
      StepConsistent(w, ops[0]);
      RunStaysConsistent(Step(w, ops[0]).0, ops[1..]);
    }
  }
}
