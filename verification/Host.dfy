/**
 * The kernel under the datagram and server sockets: open descriptors, the file names of Unix
 * sockets and the datagrams waiting on each descriptor. Descriptors are never reissued.
 */
module Hosts {
  import opened Basics
  import opened SocketAddresses
  import opened SocketPaths

  const INVALID := -1

  datatype Host = Host(
    open: set<int>,
    next: nat,                   // the descriptor socket() hands out next
    paths: map<Bytes, int>,      // file name -> the descriptor that bound it, even if closed since
    inbox: map<int, seq<Packet>>) // datagrams waiting on a descriptor

  /** A datagram and the address it came from; that of a Unix socket is not looked at. */
  datatype Packet = Packet(from: SocketAddress, data: Bytes)

  /** The kernel's own bookkeeping: nothing refers to a descriptor that was never handed out. */
  ghost predicate Sound(k: Host) {
    && (forall h :: h in k.open ==> 0 <= h < k.next)
    && (forall name :: name in k.paths ==> 0 <= k.paths[name] < k.next)
  }

  function NewSocket(k: Host, ok: bool): (Host, int) {
    if ok then (k.(open := k.open + {k.next}, next := k.next + 1), k.next) else (k, INVALID)
  }

  /** ::close(). File names outlive their descriptor, abstract names do not. */
  function CloseSocket(k: Host, h: int): Host {
    var k1 := k.(open := k.open - {h});
    if [] in k.paths && k.paths[[]] == h then k1.(paths := k.paths - {[]}) else k1
  }

  /** std::remove(path.c_str()) */
  function RemovePath(k: Host, path: Bytes, ok: bool): Host {
    if ok && CString(path) != [] then k.(paths := k.paths - {CString(path)}) else k
  }

  /** ::bind() of a Unix address: 0, or -1 when the name exists, the descriptor is bad or the kernel refuses. */
  function BindPath(k: Host, h: int, sunPath: Bytes, ok: bool): (Host, int) {
    var name := KernelName(sunPath);
    if h in k.open && name !in k.paths && ok then (k.(paths := k.paths[name := h]), 0) else (k, -1)
  }

  /** The open descriptor a Unix address leads to. */
  function Route(k: Host, sunPath: Bytes): Option<int> {
    var name := KernelName(sunPath);
    if name in k.paths && k.paths[name] in k.open then Some(k.paths[name]) else None
  }

  function Inbox(k: Host, h: int): seq<Packet> {
    if h in k.inbox then k.inbox[h] else []
  }

  function Deliver(k: Host, h: int, packet: Packet): Host {
    if h in k.open then k.(inbox := k.inbox[h := Inbox(k, h) + [packet]]) else k
  }

  /** ::recvfrom() for up to n bytes: the code, the sender with the bytes written, and the host less that datagram. */
  function RecvFrom(k: Host, h: int, n: nat, ok: bool): (Host, int, Packet) {
    if !ok || h !in k.open || Inbox(k, h) == [] then (k, -1, Packet(ZERO_ADDRESS, [])) else
      var packet := Inbox(k, h)[0];
      var m := Min(n, |packet.data|);
      (k.(inbox := k.inbox[h := Inbox(k, h)[1..]]), m, Packet(packet.from, packet.data[..m]))
  }
}
