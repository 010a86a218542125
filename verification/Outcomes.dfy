/**
 * What each operation of the datagram and server sockets returns and leaves behind, in every case. Each
 * lemma describes host, object and result by what a caller can observe: descriptors, names, inboxes.
 */
module Outcomes {
  import opened Basics
  import opened SocketAddresses
  import opened SocketPaths
  import opened Hosts
  import opened Lifecycle

  /** Names and waiting datagrams are as they were. */
  ghost predicate SameTraffic(k: Host, k1: Host) {
    k1.paths == k.paths && k1.inbox == k.inbox
  }

  /** Every name but this one leads where it led. */
  ghost predicate SameOtherNames(k: Host, k1: Host, name: Bytes) {
    && (forall n :: n in k1.paths && n != name ==> n in k.paths && k1.paths[n] == k.paths[n])
    && (forall n :: n in k.paths && n != name ==> n in k1.paths)
  }

  /** No name is new or leads elsewhere; some may be gone. */
  ghost predicate NamesOnlyGo(k: Host, k1: Host) {
    forall n :: n in k1.paths ==> n in k.paths && k1.paths[n] == k.paths[n]
  }

  /** The port of address b is `port`, and everything else in it is as in a. */
  ghost predicate SameButPort(a: SocketAddress, b: SocketAddress, port: Port) {
    && GetPortNumber(b) == port
    && forall i :: 0 <= i < SOCKADDR_SIZE && i != 2 && i != 3 ==> b[i] == a[i]
  }

  // ---- UDPSocket ----------------------------------------------------------------------------

  /** close() forgets everything but the family, closes the descriptor, and disturbs no file name. */
  lemma UdpCloseExactly(k: Host, u: UdpState)
    ensures var (k1, u1) := UdpClose(k, u);
      && u1 == NEW_UDP.(protocolVersion := u.protocolVersion)
      && k1.open == k.open - {u.fd} && k1.next == k.next && k1.inbox == k.inbox
      && SameOtherNames(k, k1, []) && NamesOnlyGo(k, k1)
      && ([] in k.paths ==> ([] !in k1.paths <==> k.paths[[]] == u.fd))
  {
  }

  /** A UDP bind without an address or without a socket throws, and changes no more than it has reached. */
  lemma UdpBindThrows(k: Host, u: UdpState, address: Option<SocketAddress>, a: Answers)
    requires address.None? || !a.socketOk
    ensures var d := UdpBind(k, u, address, a);
      && d.host == k
      && d.result == Failure(if address.None? then BindingException else SocketException)
      && d.sock.bound == u.bound && d.sock.listeningPort == u.listeningPort
      && (address.None? ==> d.sock == u)
      && (address.Some? ==> d.sock.fd == INVALID && d.sock.protocolVersion == Family(address.value))
  {
  }

  /**
   * Binding a bound UDP socket again, once the new socket exists, always returns -1: it closes the
   * new descriptor instead of the old one, and leaves the object unbound with the old one, if there
   * is one, still open.
   */
  lemma UdpRebindFails(k: Host, u: UdpState, address: SocketAddress, a: Answers)
    requires Sound(k) && u.bound && a.socketOk
    ensures var d := UdpBind(k, u, Some(address), a);
      && d.result == Success((-1, ZERO_ADDRESS))
      && d.sock == UdpState(INVALID, false, Family(address), None)
      && (u.fd in k.open ==> u.fd in d.host.open)
      && d.host.open == k.open && d.host.next == k.next + 1 && SameTraffic(k, d.host)
  {
  }

  /** A UDP bind that gets its socket returns 0 exactly on an unbound object, with the kernel willing. */
  lemma {:induction false} UdpBindSucceedsExactly(k: Host, u: UdpState, address: SocketAddress, a: Answers)
    requires Sound(k) && a.socketOk
    ensures var d := UdpBind(k, u, Some(address), a);
      && (d.result.Success? && d.result.value.0 == 0 <==> !u.bound && a.bindOk && a.sockName.Some?)
      && (d.result.Failure? <==> !u.bound && a.bindOk && a.sockName.None?)
      && (d.result.Failure? ==> d.result.error == BindingException)
      && (d.result.Failure? ==> d.sock == UdpState(INVALID, false, Family(address), None) && d.host.open == k.open)
      && (d.result.Success? && d.result.value.0 == 0 <==> d.sock.bound)
      && (d.sock.bound ==> d.sock.listeningPort == Some(GetPortNumber(d.result.value.1)))
      && SameTraffic(k, d.host)
  {
    if a.sockName.Some? {
      PortWriteReadsBack(address, GetPortNumber(a.sockName.value));
    }
  }

  /**
   * What an unbound UDP socket is after a bind that returned. After 0 it listens on a new descriptor and
   * on the port the kernel chose, and the address returned is the one asked for with that port; after
   * -1 it holds the new descriptor, unbound, and the address is empty.
   */
  lemma {:induction false} UdpBindReturns(k: Host, u: UdpState, address: SocketAddress, a: Answers)
    requires Sound(k) && a.socketOk && !u.bound && (a.bindOk ==> a.sockName.Some?)
    ensures var d := UdpBind(k, u, Some(address), a);
      && d.host.open == k.open + {k.next} && d.host.next == k.next + 1
      && d.sock.fd == k.next && d.sock.protocolVersion == Family(address) && d.sock.bound == a.bindOk
      && d.result.Success?
      && (a.bindOk ==>
            var port := GetPortNumber(a.sockName.value);
            && d.sock.listeningPort == Some(port)
            && d.result.value.0 == 0 && SameButPort(address, d.result.value.1, port))
      && (!a.bindOk ==> d.result.value == (-1, ZERO_ADDRESS) && d.sock.listeningPort == u.listeningPort)
  {
    if a.bindOk {
      PortWriteReadsBack(address, GetPortNumber(a.sockName.value));
    }
  }

  /** close() then bind() is the sequence that moves a UDP socket, and it works after a failed rebind too. */
  lemma {:induction false} UdpCloseThenBind(k: Host, u: UdpState, address: SocketAddress, a: Answers)
    requires Sound(k) && a.socketOk && a.bindOk && a.sockName.Some?
    ensures var (k1, u1) := UdpClose(k, u); var d := UdpBind(k1, u1, Some(address), a);
      && d.result.Success? && d.result.value.0 == 0
      && SameButPort(address, d.result.value.1, GetPortNumber(a.sockName.value))
      && Family(d.result.value.1) == Family(address)
      && d.sock == UdpState(k.next, true, Family(address), Some(GetPortNumber(a.sockName.value)))
      && d.host.open == k.open - {u.fd} + {k.next}
  {
    var (k1, u1) := UdpClose(k, u);
    UdpBindReturns(k1, u1, address, a);
    PortWriteReadsBack(address, GetPortNumber(a.sockName.value));
  }

  /**
   * A UDP send, exactly: -2 without a descriptor, -1 when the kernel refuses, and otherwise the length
   * of the message, which is then in the one inbox the network delivers to, if any. The temporary
   * descriptor is closed again in every case.
   */
  lemma UdpSendExactly(k: Host, delivery: Option<Delivery>, message: Bytes, socketOk: bool, ok: bool)
    requires Sound(k)
    ensures var (k1, result) := UdpSend(k, delivery, message, socketOk, ok);
      && (result == -2 <==> !socketOk) && (result == -2 ==> k1 == k)
      && (result == -1 <==> socketOk && !ok)
      && (socketOk && ok ==> result == |message|)
      && k1.open == k.open && k1.paths == k.paths
      && forall h :: h != k.next ==>
           Inbox(k1, h) ==
           if result >= 0 && delivery.Some? && delivery.value.h == h && h in k.open
           then Inbox(k, h) + [Packet(delivery.value.from, message)]
           else Inbox(k, h)
  {
  }

  // ---- DatagramIPCSocket --------------------------------------------------------------------

  /** The path names a file, and a bind or construction with these arguments removes it first. */
  predicate Overridden(path: Bytes, override: bool, a: Answers) {
    override && a.overrideRemoveOk && Name(path) != []
  }

  /** The names close() takes away: the object's path, if that names a file, and its abstract name. */
  predicate UnlinkedByClose(k: Host, s: DatagramState, removeOk: bool, name: Bytes)
    requires name in k.paths
  {
    if name == [] then k.paths[name] == s.fd
    else removeOk && s.bound && s.socketPath.Some? && name == CString(s.socketPath.value)
  }

  /**
   * close() leaves a new object whatever the old one was. It closes the descriptor and unlinks the path
   * of a bound object, whoever owns that name by now; every other file name stays.
   */
  lemma DatagramCloseExactly(k: Host, s: DatagramState, removeOk: bool)
    ensures var (k1, s1) := DatagramClose(k, s, removeOk);
      && s1 == NEW_DATAGRAM
      && k1.open == k.open - {s.fd} && k1.next == k.next && k1.inbox == k.inbox
      && NamesOnlyGo(k, k1)
      && (forall n :: n in k.paths ==> (n !in k1.paths <==> UnlinkedByClose(k, s, removeOk, n)))
  {
  }

  /** A datagram bind without a path or without a socket throws; with override the name is gone all the same. */
  lemma DatagramBindThrows(k: Host, s: DatagramState, override: bool, path: Option<Bytes>, a: Answers)
    requires path.None? || !a.socketOk
    ensures var d := DatagramBind(k, s, override, path, a);
      && d.result == Failure(if path.None? then BindingException else SocketException)
      && d.host.open == k.open && d.host.next == k.next && d.host.inbox == k.inbox
      && (path.None? ==> d.host == k && d.sock == s)
      && (path.Some? ==>
            var name := Name(path.value);
            && d.sock.fd == INVALID && d.sock.bound == s.bound && d.sock.socketPath == s.socketPath
            && SameOtherNames(k, d.host, name)
            && (name in d.host.paths <==> name in k.paths && !Overridden(path.value, override, a))
            && (name in d.host.paths ==> d.host.paths[name] == k.paths[name]))
  {
    if path.Some? {
      AddressOfTruncated(path.value);
    }
  }

  /** The same for a datagram IPC socket, which also gives up its path. */
  lemma DatagramRebindFails(k: Host, s: DatagramState, override: bool, path: Bytes, a: Answers)
    requires Sound(k) && s.bound && a.socketOk
    ensures var d := DatagramBind(k, s, override, Some(path), a);
      && d.result == Success((-1, []))
      && d.sock == NEW_DATAGRAM
      && (s.fd in k.open ==> s.fd in d.host.open)
      && d.host.open == k.open && d.host.next == k.next + 1 && d.host.inbox == k.inbox
      && (s.socketPath.Some? && a.closeRemoveOk && CString(s.socketPath.value) != [] ==>
            CString(s.socketPath.value) !in d.host.paths)
      && NamesOnlyGo(k, d.host)
      && (forall n :: n in k.paths ==>
            (n !in d.host.paths <==>
               || (Overridden(path, override, a) && n == Name(path))
               || (n != [] && UnlinkedByClose(k, s, a.closeRemoveOk, n))))
  {
    AddressOfTruncated(path);
  }

  /**
   * An unbound datagram IPC socket that gets its descriptor binds exactly when the kernel is willing and
   * its name is free or removed. The path it stores and returns is the one asked for up to the size of
   * sun_path, and its name then leads to it; a bind that fails returns no path and keeps the descriptor.
   */
  lemma {:induction false} DatagramBindSucceedsExactly(k: Host, s: DatagramState, override: bool, path: Bytes,
                                                       a: Answers)
    requires Sound(k) && !s.bound && a.socketOk
    ensures var d := DatagramBind(k, s, override, Some(path), a);
      var name := Name(path); var used := path[..Min(|path|, SUN_PATH_SIZE)];
      var binds := a.bindOk && (name !in k.paths || Overridden(path, override, a));
      && d.result == Success(if binds then (0, used) else (-1, []))
      && d.sock == (if binds then DatagramState(k.next, true, Some(used)) else s.(fd := k.next))
      && d.host.open == k.open + {k.next} && d.host.next == k.next + 1 && d.host.inbox == k.inbox
      && SameOtherNames(k, d.host, name)
      && (binds ==> Route(d.host, SunPath(path)) == Some(k.next) && Route(d.host, SunPath(used)) == Some(k.next))
      && (!binds ==> (name in d.host.paths <==> name in k.paths && !Overridden(path, override, a)))
      && (!binds && name in d.host.paths ==> d.host.paths[name] == k.paths[name])
  {
    KernelSeesName(path);
    KernelSeesName(Truncate(path));
    SamePathSameAddress(path, Truncate(path));
    TruncateKeepsPrefix(path);
  }

  /**
   * close() then bind() moves a datagram IPC socket, to any path that is free, that it overrides, or that
   * was its own; the path then leads to the new descriptor.
   */
  lemma DatagramCloseThenBind(k: Host, s: DatagramState, removeOk: bool, override: bool, path: Bytes, a: Answers)
    requires Sound(k) && a.socketOk && a.bindOk
    ensures var (k1, s1) := DatagramClose(k, s, removeOk); var d := DatagramBind(k1, s1, override, Some(path), a);
      var name := Name(path);
      && d.result.Success?
      && (d.result.value.0 == 0 <==>
            || name !in k.paths || Overridden(path, override, a) || UnlinkedByClose(k, s, removeOk, name))
      && (d.result.value.0 == 0 ==>
            && d.sock == DatagramState(k.next, true, Some(path[..Min(|path|, SUN_PATH_SIZE)]))
            && d.host.open == k.open - {s.fd} + {k.next}
            && Route(d.host, SunPath(path)) == Some(k.next))
  {
    var (k1, s1) := DatagramClose(k, s, removeOk);
    DatagramCloseExactly(k, s, removeOk);
    DatagramBindSucceedsExactly(k1, s1, override, path, a);
  }

  /**
   * A datagram send, exactly: -2 without a descriptor, -1 when the kernel refuses or the path leads
   * nowhere, and otherwise the length of the message, which is then in the inbox the path leads to.
   */
  lemma DatagramSendExactly(k: Host, path: Bytes, message: Bytes, socketOk: bool, ok: bool)
    requires Sound(k)
    ensures var (k1, result) := DatagramSend(k, path, message, socketOk, ok);
      var name := Name(path); var leads := name in k.paths && k.paths[name] in k.open;
      && (result == -2 <==> !socketOk) && (result == -2 ==> k1 == k)
      && (result == -1 <==> socketOk && !(ok && leads))
      && (socketOk && ok && leads ==> result == |message|)
      && k1.open == k.open && k1.paths == k.paths
      && forall h :: Inbox(k1, h) ==
           if result >= 0 && k.paths[name] == h then Inbox(k, h) + [Packet(ZERO_ADDRESS, message)] else Inbox(k, h)
  {
    AddressOfTruncated(path);
  }

  // ---- IPCServerSocket ----------------------------------------------------------------------

  /** close() closes the descriptor and unlinks the path every time, whoever owns that name by now. */
  lemma ServerCloseExactly(k: Host, s: ServerState, removeOk: bool)
    ensures var (k1, s1) := ServerClose(k, s, removeOk);
      && s1 == ServerState(INVALID, s.path)
      && k1.open == k.open - {s.fd} && k1.next == k.next && k1.inbox == k.inbox
      && NamesOnlyGo(k, k1)
      && (forall n :: n in k.paths ==>
            (n !in k1.paths <==> if n == [] then k.paths[n] == s.fd else removeOk && n == CString(s.path)))
  {
  }
}
