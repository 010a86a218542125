/** Which open descriptor a socket path leads to, over every sequence of operations. */
module Routing {
  import opened Basics
  import SocketAddresses
  import opened SocketPaths
  import opened Hosts
  import opened Lifecycle
  import opened Connections
  import opened Programs
  import opened Descriptors
  import opened Outcomes

  /** The name leads to the open descriptor h. */
  predicate Leads(k: Host, name: Bytes, h: int) {
    name in k.paths && k.paths[name] == h && h in k.open
  }

  /** The operation closes or binds object i. */
  predicate Touches(op: Op, i: nat) {
    match op
    case BindUdp(j, _, _) => j == i
    case BindDatagram(j, _, _, _) => j == i
    case Close(j, _) => j == i
    case _ => false
  }

  /** Closing this object removes the name. */
  predicate CloseRemoves(s: Sock, removeOk: bool, name: Bytes) {
    removeOk && name != [] &&
    match s
    case Udp(_) => false
    case Datagram(d) => d.bound && d.socketPath.Some? && CString(d.socketPath.value) == name
    case Server(v) => CString(v.path) == name
    case Connection(_) => false
  }

  /** The operation takes the name away from whoever has it. What it tests is known before the call. */
  predicate Unlinks(w: World, op: Op, name: Bytes) {
    match op
    case BindDatagram(i, override, path, a) =>
      DatagramAt(w, i) && path.Some? && name != [] &&
      ((override && a.overrideRemoveOk && Name(path.value) == name) ||
       (a.socketOk && CloseRemoves(w.socks[i], a.closeRemoveOk, name)))
    case MakeServer(path, override, a) =>
      name != [] && Name(path) == name &&
      ((override && a.overrideRemoveOk) || (a.socketOk && a.closeRemoveOk))
    case Close(i, removeOk) =>
      i < |w.socks| && CloseRemoves(w.socks[i], removeOk, name)
    case _ => false
  }

  lemma DatagramCloseRoutes(k: Host, s: DatagramState, removeOk: bool, name: Bytes, h: int)
    requires Sound(k) && h in k.open && h != s.fd
    ensures Leads(DatagramClose(k, s, removeOk).0, name, h) <==>
      Leads(k, name, h) && !CloseRemoves(Datagram(s), removeOk, name)
  {
  }

  lemma DatagramBindRoutes(k: Host, s: DatagramState, override: bool, path: Bytes, a: Answers, name: Bytes, h: int)
    requires Sound(k) && h in k.open && h != s.fd
    ensures var k1 := DatagramBind(k, s, override, Some(path), a).host;
      Leads(k1, name, h) <==>
        (&& Leads(k, name, h)
         && !(name != [] &&
              ((override && a.overrideRemoveOk && Name(path) == name) ||
               (a.socketOk && CloseRemoves(Datagram(s), a.closeRemoveOk, name)))))
  {
    AddressOfTruncated(path);
    var k0 := if override then RemovePath(k, Truncate(path), a.overrideRemoveOk) else k;
    var (k1, fd) := NewSocket(k0, a.socketOk);
    if fd != INVALID {
      DatagramCloseRoutes(k1, s.(fd := fd), a.closeRemoveOk, name, h);
    }
  }

  lemma ServeRoutes(k: Host, path: Bytes, override: bool, a: Answers, name: Bytes, h: int)
    requires Sound(k) && h in k.open
    ensures var k1 := Serve(k, path, override, a).host;
      Leads(k1, name, h) <==>
        (&& Leads(k, name, h)
         && !(name != [] && Name(path) == name &&
              ((override && a.overrideRemoveOk) || (a.socketOk && a.closeRemoveOk))))
  {
    AddressOfTruncated(path);
  }

  lemma CloseRoutes(k: Host, s: Sock, removeOk: bool, name: Bytes, h: int)
    requires Sound(k) && h in k.open && h != s.Fd()
    ensures Leads(CloseSock(k, s, removeOk).0, name, h) <==> Leads(k, name, h) && !CloseRemoves(s, removeOk, name)
  {
  }

  lemma UdpBindRoutes(k: Host, u: UdpState, address: Option<SocketAddresses.SocketAddress>, a: Answers,
                      name: Bytes, h: int)
    requires Sound(k) && h in k.open
    ensures Leads(UdpBind(k, u, address, a).host, name, h) <==> Leads(k, name, h)
  {
  }

  lemma SendRoutes(k: Host, path: Bytes, message: Bytes, socketOk: bool, ok: bool, name: Bytes, h: int)
    requires Sound(k) && h in k.open
    ensures Leads(DatagramSend(k, path, message, socketOk, ok).0, name, h) <==> Leads(k, name, h)
  {
  }

  /** A TCP or stream construction leaves names, inboxes and the other objects as they are. */
  lemma ConnectKeepsNames(w: World, op: Op)
    requires WellFormed(w) && Connects(op)
    ensures var w1 := Step(w, op).0;
      && w.host.open <= w1.host.open && w1.host.paths == w.host.paths && w1.host.inbox == w.host.inbox
      && (w1.socks == w.socks ||
          exists h :: w1.socks == w.socks + [Connection(h)] && (h == INVALID || h >= w.host.next))
  {
    ConnectConstructs(w, op);
    var k1, r, fd :| Constructs(w, op, k1, r, fd);
  }

  /** Object i is as it was, and its name is still its own exactly when the operation does not unlink it. */
  ghost predicate RouteFollows(w: World, op: Op, i: nat, name: Bytes)
    requires i < |w.socks|
  {
    var w1, h := Step(w, op).0, w.socks[i].Fd();
    && i < |w1.socks| && w1.socks[i] == w.socks[i]
    && (Leads(w1.host, name, h) <==> Leads(w.host, name, h) && !Unlinks(w, op, name))
  }

  lemma BindRoutes(w: World, op: Op, i: nat, name: Bytes)
    requires WellFormed(w) && i < |w.socks| && w.socks[i].Fd() != INVALID && !Touches(op, i)
    requires op.BindUdp? || op.BindDatagram?
    ensures RouteFollows(w, op, i, name)
  {
    var h := w.socks[i].Fd();
    match op
    case BindUdp(j, address, a) =>
      if UdpAt(w, j) { UdpBindRoutes(w.host, w.socks[j].udp, address, a, name, h); }
    case BindDatagram(j, override, path, a) =>
      if DatagramAt(w, j) && path.Some? {
        DatagramBindRoutes(w.host, w.socks[j].datagram, override, path.value, a, name, h);
      }
  }

  lemma TrafficRoutes(w: World, op: Op, i: nat, name: Bytes)
    requires WellFormed(w) && i < |w.socks| && w.socks[i].Fd() != INVALID
    requires op.SendToPath? || op.SendUdp? || op.Receive? || op.Arrive?
    ensures RouteFollows(w, op, i, name)
  {
    var h := w.socks[i].Fd();
    match op
    case SendToPath(path, message, socketOk, ok) =>
      if path.Some? { SendRoutes(w.host, path.value, message, socketOk, ok, name, h); }
    case SendUdp(delivery, message, socketOk, ok) =>
      UdpSendDescriptors(w.host, delivery, message, socketOk, ok);
    case _ =>
  }

  /** One operation by others: object i's name stays its own exactly when the operation does not unlink it. */
  lemma {:induction false} StepRoutes(w: World, op: Op, i: nat, name: Bytes)
    requires WellFormed(w) && i < |w.socks| && w.socks[i].Fd() != INVALID && !Touches(op, i)
    ensures var w1 := Step(w, op).0; var h := w.socks[i].Fd();
      && i < |w1.socks| && w1.socks[i] == w.socks[i]
      && (Leads(w1.host, name, h) <==> Leads(w.host, name, h) && !Unlinks(w, op, name))
  {
    var h := w.socks[i].Fd();
    match op
    case BindUdp(_, _, _) => BindRoutes(w, op, i, name);
    case BindDatagram(_, _, _, _) => BindRoutes(w, op, i, name);
    case MakeServer(path, override, a) => ServeRoutes(w.host, path, override, a, name, h);
    case Close(j, removeOk) =>
      if j < |w.socks| { CloseRoutes(w.host, w.socks[j], removeOk, name, h); }
    case SendToPath(_, _, _, _) => TrafficRoutes(w, op, i, name);
    case SendUdp(_, _, _, _) => TrafficRoutes(w, op, i, name);
    case Receive(_, _, _) => TrafficRoutes(w, op, i, name);
    case Arrive(_, _) => TrafficRoutes(w, op, i, name);
    case NewUdp =>
    case NewDatagram =>
    case _ => ConnectKeepsNames(w, op);
  }

  /** Some operation of the run unlinks the name. */
  predicate Displaced(w: World, ops: seq<Op>, name: Bytes)
    decreases |ops|
  {
    ops != [] && (Unlinks(w, ops[0], name) || Displaced(Step(w, ops[0]).0, ops[1..], name))
  }

  /**
   * Routing over every run, overrides and servers included: an object that is neither closed nor
   * bound again keeps its name exactly as long as no operation of the run unlinks that name. This
   * says both when a live datagram socket is still reachable and when a live server is.
   */
  lemma {:induction false} RunRoutes(w: World, ops: seq<Op>, i: nat, name: Bytes)
    requires WellFormed(w) && i < |w.socks| && w.socks[i].Fd() != INVALID
    requires forall j :: 0 <= j < |ops| ==> !Touches(ops[j], i)
    ensures var w1 := RunOps(w, ops); var h := w.socks[i].Fd();
      && i < |w1.socks| && w1.socks[i] == w.socks[i]
      && (Leads(w1.host, name, h) <==> Leads(w.host, name, h) && !Displaced(w, ops, name))
    decreases |ops|
  {
    if ops != [] {
      StepRoutes(w, ops[0], i, name);
      StepOrphans(w, ops[0]);
      RunRoutes(Step(w, ops[0]).0, ops[1..], i, name);
    }
  }

  // ---- Servers ------------------------------------------------------------------------------

  /**
   * Constructing an IPC server, exactly: it succeeds when the kernel is willing and its name is free
   * or removed first, and then the name leads to it. A construction that fails leaves no descriptor
   * of its own open; past socket creation it removes the name, whoever made it. The exception says
   * whether binding failed, or the calls before or after it.
   */
  lemma {:induction false} ServeExactly(k: Host, path: Bytes, override: bool, a: Answers)
    requires Sound(k)
    ensures var d := Serve(k, path, override, a); var name := Name(path);
      var binds := a.socketOk && a.bindOk && (name !in k.paths || Overridden(path, override, a));
      && (d.result.Success? <==> binds && a.listenOk)
      && (d.result.Failure? ==> d.result.error == if a.socketOk && !binds then BindingException else SocketException)
      && d.sock.path == path[..Min(|path|, SUN_PATH_SIZE)]
      && (d.result.Success? ==> d.sock == ServerState(k.next, Truncate(path)) && Leads(d.host, name, k.next))
      && (d.result.Failure? ==> d.host.open == k.open && d.sock.fd == INVALID)
      && (d.result.Failure? && a.socketOk && a.closeRemoveOk && name != [] ==> name !in d.host.paths)
      && (d.result.Failure? && binds && !a.closeRemoveOk && name != [] ==>
            name in d.host.paths && d.host.paths[name] == k.next)
      && (!a.socketOk || (d.result.Failure? && !binds && !a.closeRemoveOk) || (d.result.Failure? && name == []) ==>
            && (name in d.host.paths <==> name in k.paths && !Overridden(path, override, a))
            && (name in d.host.paths ==> d.host.paths[name] == k.paths[name]))
      && SameOtherNames(k, d.host, name)
  {
    AddressOfTruncated(path);
    TruncateKeepsPrefix(path);
  }

  // ---- Runs without override and servers ----------------------------------------------------

  /** The name a bound datagram socket goes by. */
  function OwnName(s: Sock): Option<Bytes> {
    if s.Datagram? && s.datagram.bound && s.datagram.socketPath.Some?
    then Some(CString(s.datagram.socketPath.value))
    else None
  }

  /** Every bound datagram socket's name is its own: it leads to no other object, and no two share one. */
  ghost predicate Routed(w: World) {
    && (forall i :: 0 <= i < |w.socks| ==> !w.socks[i].Server?)
    && (forall i :: 0 <= i < |w.socks| && OwnName(w.socks[i]).Some? ==> OwnName(w.socks[i]).value in w.host.paths)
    && (forall i, j :: 0 <= i < |w.socks| && 0 <= j < |w.socks| &&
                       OwnName(w.socks[i]).Some? && w.socks[j].Fd() != INVALID ==>
          (w.host.paths[OwnName(w.socks[i]).value] == w.socks[j].Fd() <==> i == j))
    && (forall i, j :: 0 <= i < j < |w.socks| && OwnName(w.socks[i]).Some? ==>
          OwnName(w.socks[i]) != OwnName(w.socks[j]))
  }

  /** What a close or a bind without override does to names: others' stay, and a new one was free. */
  ghost predicate Renames(k: Host, s: Sock, k1: Host, s1: Sock) {
    && !s1.Server?
    && (forall n :: n in k.paths && Some(n) != OwnName(s) && k.paths[n] != s.Fd() ==>
          n in k1.paths && k1.paths[n] == k.paths[n])
    && (|| OwnName(s1) == None
        || (OwnName(s1) == OwnName(s) && k1.paths == k.paths && (s1.Fd() == INVALID || s1.Fd() == s.Fd()))
        || (OwnName(s1).value !in k.paths && k1.paths == k.paths[OwnName(s1).value := k.next] && s1.Fd() == k.next))
  }

  lemma DatagramBindRenames(k: Host, s: DatagramState, path: Bytes, a: Answers)
    requires Sound(k)
    ensures var d := DatagramBind(k, s, false, Some(path), a); Renames(k, Datagram(s), d.host, Datagram(d.sock))
  {
    AddressOfTruncated(path);
  }

  lemma CloseRenames(k: Host, s: Sock, removeOk: bool)
    requires Sound(k) && !s.Server?
    ensures var (k1, s1) := CloseSock(k, s, removeOk); Renames(k, s, k1, s1)
  {
  }

  lemma UdpBindRenames(k: Host, u: UdpState, address: SocketAddresses.SocketAddress, a: Answers)
    requires Sound(k)
    ensures var d := UdpBind(k, u, Some(address), a); d.host.paths == k.paths && Renames(k, Udp(u), d.host, Udp(d.sock))
  {
  }

  lemma AfterRename(w: World, i: nat, k1: Host, s1: Sock)
    requires WellFormed(w) && Routed(w) && i < |w.socks| && Renames(w.host, w.socks[i], k1, s1)
    requires s1.Fd() == INVALID || s1.Fd() >= w.host.next || s1 == w.socks[i]
    ensures Routed(World(k1, w.socks[i := s1]))
  {
  }

  /** Operations of programs without overriding binds and without servers. */
  predicate Plain(op: Op) {
    !op.MakeServer? && !(op.BindDatagram? && op.override)
  }

  lemma UdpBindKeepsRouted(w: World, i: nat, address: SocketAddresses.SocketAddress, a: Answers)
    requires WellFormed(w) && Routed(w) && UdpAt(w, i)
    ensures Routed(Step(w, BindUdp(i, Some(address), a)).0)
  {
    var u := w.socks[i].udp;
    var d := UdpBind(w.host, u, Some(address), a);
    UdpBindRenames(w.host, u, address, a);
    UdpBindDescriptors(w.host, u, address, a);
    AfterRename(w, i, d.host, Udp(d.sock));
  }

  lemma DatagramBindKeepsRouted(w: World, i: nat, path: Bytes, a: Answers)
    requires WellFormed(w) && Routed(w) && DatagramAt(w, i)
    ensures Routed(Step(w, BindDatagram(i, false, Some(path), a)).0)
  {
    var s := w.socks[i].datagram;
    var d := DatagramBind(w.host, s, false, Some(path), a);
    DatagramBindRenames(w.host, s, path, a);
    DatagramBindDescriptors(w.host, s, false, path, a);
    AfterRename(w, i, d.host, Datagram(d.sock));
  }

  lemma CloseKeepsRouted(w: World, i: nat, removeOk: bool)
    requires WellFormed(w) && Routed(w) && i < |w.socks|
    ensures Routed(Step(w, Close(i, removeOk)).0)
  {
    var (k, s) := CloseSock(w.host, w.socks[i], removeOk);
    CloseRenames(w.host, w.socks[i], removeOk);
    CloseDescriptors(w.host, w.socks[i], removeOk);
    AfterRename(w, i, k, s);
  }

  lemma SamePathsKeepRouted(w: World, k1: Host)
    requires Routed(w) && k1.paths == w.host.paths
    ensures Routed(w.(host := k1))
  {
  }

  lemma SendKeepsPaths(k: Host, path: Bytes, message: Bytes, socketOk: bool, ok: bool)
    requires Sound(k)
    ensures DatagramSend(k, path, message, socketOk, ok).0.paths == k.paths
  {
  }

  lemma TrafficKeepsRouted(w: World, op: Op)
    requires WellFormed(w) && Routed(w)
    requires op.SendToPath? || op.SendUdp? || op.Receive? || op.Arrive?
    ensures Routed(Step(w, op).0)
  {
    if op.SendToPath? && op.path.Some? {
      SendKeepsPaths(w.host, op.path.value, op.message, op.socketOk, op.ok);
    } else if op.SendUdp? {
      UdpSendDescriptors(w.host, op.delivery, op.message, op.socketOk, op.ok);
    }
    SamePathsKeepRouted(w, Step(w, op).0.host);
  }

  lemma NewKeepsRouted(w: World, s: Sock)
    requires WellFormed(w) && Routed(w) && !s.Server? && OwnName(s) == None
    requires s.Fd() == INVALID || s.Fd() >= w.host.next
    ensures Routed(w.(socks := w.socks + [s]))
  {
  }

  lemma ConnectKeepsRouted(w: World, op: Op)
    requires WellFormed(w) && Routed(w) && Connects(op)
    ensures Routed(Step(w, op).0)
  {
    ConnectKeepsNames(w, op);
    var w1 := Step(w, op).0;
    SamePathsKeepRouted(w, w1.host);
    if w1.socks != w.socks {
      var h :| w1.socks == w.socks + [Connection(h)] && (h == INVALID || h >= w.host.next);
      NewKeepsRouted(w, Connection(h));
      SamePathsKeepRouted(w.(socks := w1.socks), w1.host);
    }
  }

  lemma StepRouted(w: World, op: Op)
    requires WellFormed(w) && Routed(w) && Plain(op)
    ensures Routed(Step(w, op).0)
  {
    match op
    case BindUdp(i, address, a) =>
      if UdpAt(w, i) && address.Some? {
        UdpBindKeepsRouted(w, i, address.value, a);
      } else if UdpAt(w, i) {
        assert Step(w, op).0 == w by { assert w.socks[i := w.socks[i]] == w.socks; }
      }
    case BindDatagram(i, override, path, a) =>
      if DatagramAt(w, i) && path.Some? {
        DatagramBindKeepsRouted(w, i, path.value, a);
      } else if DatagramAt(w, i) {
        assert Step(w, op).0 == w by { assert w.socks[i := w.socks[i]] == w.socks; }
      }
    case Close(i, removeOk) =>
      if i < |w.socks| {
        CloseKeepsRouted(w, i, removeOk);
      }
    case NewUdp => NewKeepsRouted(w, Udp(NEW_UDP));
    case NewDatagram => NewKeepsRouted(w, Datagram(NEW_DATAGRAM));
    case SendToPath(_, _, _, _) => TrafficKeepsRouted(w, op);
    case SendUdp(_, _, _, _) => TrafficKeepsRouted(w, op);
    case Receive(_, _, _) => TrafficKeepsRouted(w, op);
    case Arrive(_, _) => TrafficKeepsRouted(w, op);
    case _ => ConnectKeepsRouted(w, op);
  }

  /**
   * Path routing over every run without override and servers: no two bound datagram sockets share a
   * name, and a bound socket that still holds its descriptor is where its own path leads.
   */
  lemma {:induction false} RunRouted(w: World, ops: seq<Op>)
    requires WellFormed(w) && Routed(w) && forall j :: 0 <= j < |ops| ==> Plain(ops[j])
    ensures var w1 := RunOps(w, ops);
      && WellFormed(w1) && Routed(w1)
      && (forall i :: 0 <= i < |w1.socks| && OwnName(w1.socks[i]).Some? && w1.socks[i].Fd() != INVALID ==>
            Leads(w1.host, OwnName(w1.socks[i]).value, w1.socks[i].Fd()))
      && (forall i, j :: 0 <= i < j < |w1.socks| && OwnName(w1.socks[i]).Some? ==>
            OwnName(w1.socks[i]) != OwnName(w1.socks[j]))
    decreases |ops|
  {
    if ops != [] {
      StepOrphans(w, ops[0]);
      StepRouted(w, ops[0]);
      RunRouted(Step(w, ops[0]).0, ops[1..]);
    }
  }

  /** Closing a datagram socket takes the name from a later owner, if both go by the same name. */
  lemma CloseUnlinksOther(k: Host, path: Bytes, a: int, b: int)
    requires Leads(k, Name(path), b) && a != b && Name(path) != []
    ensures var mine := DatagramState(a, true, Some(Truncate(path)));
      var (k1, s1) := DatagramClose(k, mine, true);
      s1 == NEW_DATAGRAM && b in k1.open && Route(k1, SunPath(path)) == None
  {
    AddressOfTruncated(path);
    KernelSeesName(path);
  }

  /**
   * With override it is not so, for any path that names a file: B binds A's path with override, A
   * closes, and B is bound, open and unreachable.
   */
  lemma DisplacedCloseUnlinksNewOwner(k: Host, path: Bytes, a: Answers, b: Answers)
    requires Sound(k) && Name(path) != [] && Name(path) !in k.paths
    requires a.socketOk && a.bindOk && b.socketOk && b.bindOk && b.overrideRemoveOk
    ensures var first := DatagramBind(k, NEW_DATAGRAM, false, Some(path), a);
      var second := DatagramBind(first.host, NEW_DATAGRAM, true, Some(path), b);
      var (closed, s) := DatagramClose(second.host, first.sock, true);
      && first.sock.bound && Route(first.host, SunPath(path)) == Some(first.sock.fd)
      && second.sock.bound && Route(second.host, SunPath(path)) == Some(second.sock.fd)
      && second.sock.fd in closed.open
      && Route(closed, SunPath(path)) == None
  {
    KernelSeesName(path);
    DatagramBindSucceedsExactly(k, NEW_DATAGRAM, false, path, a);
    var first := DatagramBind(k, NEW_DATAGRAM, false, Some(path), a);
    DatagramBindDescriptors(k, NEW_DATAGRAM, false, path, a);
    DatagramBindSucceedsExactly(first.host, NEW_DATAGRAM, true, path, b);
    var second := DatagramBind(first.host, NEW_DATAGRAM, true, Some(path), b);
    CloseUnlinksOther(second.host, path, first.sock.fd, second.sock.fd);
  }
}
