/** The host as the object the socket classes share. Each method is one system call. */
module OperatingSystem {
  import opened Basics
  import opened SocketAddresses
  import opened Hosts
  import opened Lifecycle

  class Os {
    var host: Host

    constructor (host: Host)
      ensures this.host == host
    {
      this.host := host;
    }

    method Socket(ok: bool) returns (h: int)
      modifies this
      ensures (host, h) == NewSocket(old(host), ok)
    {
      var (k, fd) := NewSocket(host, ok);
      host, h := k, fd;
    }

    method CloseFd(h: int)
      modifies this
      ensures host == CloseSocket(old(host), h)
    {
      host := CloseSocket(host, h);
    }

    method Remove(path: Bytes, ok: bool)
      modifies this
      ensures host == RemovePath(old(host), path, ok)
    {
      host := RemovePath(host, path, ok);
    }

    method BindUnix(h: int, sunPath: Bytes, ok: bool) returns (code: int)
      modifies this
      ensures (host, code) == BindPath(old(host), h, sunPath, ok)
    {
      var (k, c) := BindPath(host, h, sunPath, ok);
      host, code := k, c;
    }

    method BindInet(h: int, ok: bool) returns (code: int)
      ensures code == if h in host.open && ok then 0 else -1
    {
      code := if h in host.open && ok then 0 else -1;
    }

    method SendTo(sunPath: Bytes, message: Bytes, ok: bool) returns (code: int)
      modifies this
      ensures match Route(old(host), sunPath)
        case Some(h) =>
          if ok
          then host == Deliver(old(host), h, Packet(ZERO_ADDRESS, message)) && code == |message|
          else host == old(host) && code == -1
        case None => host == old(host) && code == -1
    {
      code := -1;
      match Route(host, sunPath)
      case Some(h) =>
        if ok {
          host, code := Deliver(host, h, Packet(ZERO_ADDRESS, message)), |message|;
        }
      case None =>
    }

    /** ::sendto() of a UDP datagram, which the network may deliver on this host. */
    method SendUdp(delivery: Option<Delivery>, message: Bytes, ok: bool) returns (code: int)
      modifies this
      ensures code == if ok then |message| else -1
      ensures host == if ok && delivery.Some?
                      then Deliver(old(host), delivery.value.h, Packet(delivery.value.from, message))
                      else old(host)
    {
      if !ok {
        return -1;
      }
      if delivery.Some? {
        host := Deliver(host, delivery.value.h, Packet(delivery.value.from, message));
      }
      code := |message|;
    }

    /** ::recvfrom(h, buffer, length): overwrites as much of the buffer as it received, and names the sender. */
    method ReceiveInto(h: int, buffer: array<byte>, length: nat, ok: bool) returns (code: int, from: SocketAddress)
      requires length <= buffer.Length
      modifies this, buffer
      ensures var (k, c, packet) := RecvFrom(old(host), h, length, ok);
        && host == k && code == c && from == packet.from && |packet.data| <= buffer.Length
        && buffer[..] == packet.data + old(buffer[|packet.data|..])
    {
      var (k, c, packet) := RecvFrom(host, h, length, ok);
      Overwrite(buffer, 0, packet.data);
      host, code, from := k, c, packet.from;
    }
  }
}
