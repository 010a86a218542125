/**
 * The address union as its bytes, laid out as on Linux: the family in host order (little endian) in
 * bytes 0 and 1, the port in network order behind it. The views of the union overlap on both.
 */
module SocketAddresses {
  import opened Basics

  const SOCKADDR_SIZE := 28 // sizeof(sockaddr_in6), the largest member of the union
  const SIN_PORT_OFFSET := 2
  const SIN6_PORT_OFFSET := 2

  type SocketAddress = a: Bytes | |a| == SOCKADDR_SIZE witness ZeroBytes(SOCKADDR_SIZE)

  type Port = p: int | 0 <= p < 0x1_0000

  const ANY := 0
  const IPV4 := 2
  const IPV6 := 10

  function ZeroBytes(n: nat): (z: Bytes)
    ensures |z| == n
  {
    seq(n, _ => NUL)
  }

  const ZERO_ADDRESS: SocketAddress := ZeroBytes(SOCKADDR_SIZE)

  /** Swaps the two bytes of a 16-bit value. */
  function Htons(x: Port): Port {
    (x % 256) * 256 + x / 256
  }

  /** A 16-bit field of the union, read in host order. */
  function Field(a: SocketAddress, offset: nat): Port
    requires offset + 1 < SOCKADDR_SIZE
  {
    var low: int, high: int := a[offset], a[offset + 1];
    low + 256 * high
  }

  function WithField(a: SocketAddress, offset: nat, value: Port): SocketAddress
    requires offset + 1 < SOCKADDR_SIZE
  {
    a[offset := value % 256][offset + 1 := value / 256]
  }

  function Family(a: SocketAddress): Port {
    Field(a, 0)
  }

  function GetInternetProtocolVersion(a: SocketAddress): Port {
    if Family(a) == IPV4 || Family(a) == IPV6 then Family(a) else ANY
  }

  function GetPortNumber(a: SocketAddress): Port {
    if GetInternetProtocolVersion(a) == IPV6
    then Htons(Field(a, SIN6_PORT_OFFSET))
    else Htons(Field(a, SIN_PORT_OFFSET))
  }

  /** address.ipv4.sin_port = htons(port) */
  function WithPort(a: SocketAddress, port: Port): SocketAddress {
    WithField(a, SIN_PORT_OFFSET, Htons(port))
  }

  /**
   * What the getters read, byte by byte: the family in host order from the first two bytes, the port in
   * network order from the next two whatever the family, and no version but the two known ones.
   */
  lemma GettersReadBytes(a: SocketAddress)
    ensures forall family: Port :: Family(a) == family <==> a[0] == family % 256 && a[1] == family / 256
    ensures GetInternetProtocolVersion(a) == IPV4 <==> a[..2] == [2, 0]
    ensures GetInternetProtocolVersion(a) == IPV6 <==> a[..2] == [10, 0]
    ensures GetInternetProtocolVersion(a) == ANY <==> a[..2] != [2, 0] && a[..2] != [10, 0]
    ensures GetPortNumber(a) / 256 == a[2] && GetPortNumber(a) % 256 == a[3]
  {
    forall family: Port
      ensures Family(a) == family <==> a[0] == family % 256 && a[1] == family / 256
    {
      var low: int, high: int := a[0], a[1];
      assert (low + 256 * high) % 256 == low && (low + 256 * high) / 256 == high;
    }
    assert a[..2] == [a[0], a[1]];
    var low: int, high: int := a[2], a[3];
    assert (low + 256 * high) % 256 == low && (low + 256 * high) / 256 == high;
  }

  lemma FieldReadBack(a: SocketAddress, offset: nat, value: Port)
    requires offset + 1 < SOCKADDR_SIZE
    ensures Field(WithField(a, offset, value), offset) == value
  {
  }

  lemma SwapTwice(x: Port)
    ensures Htons(Htons(x)) == x
  {
    assert Htons(x) % 256 == x / 256 && Htons(x) / 256 == x % 256;
  }

  /**
   * A port written through the IPv4 view reads back through whichever view the family selects, and
   * the write touches neither the family nor any byte of the address.
   */
  lemma {:induction false} PortWriteReadsBack(a: SocketAddress, port: Port)
    ensures var b := WithPort(a, port);
      && GetPortNumber(b) == port
      && Family(b) == Family(a)
      && GetInternetProtocolVersion(b) == GetInternetProtocolVersion(a)
      && (forall i :: 0 <= i < SOCKADDR_SIZE && i != 2 && i != 3 ==> b[i] == a[i])
      && b[2] == port / 256 && b[3] == port % 256
  {
    FieldReadBack(a, SIN_PORT_OFFSET, Htons(port));
    SwapTwice(port);
  }

  /** Writing through one view and reading through another works exactly when both put the port in the same place. */
  lemma ViewsAgreeExactlyOnSharedOffset(write: nat, read: nat)
    requires write + 1 < SOCKADDR_SIZE && read + 1 < SOCKADDR_SIZE
    ensures write == read <==>
      forall a: SocketAddress, port: Port :: Htons(Field(WithField(a, write, Htons(port)), read)) == port
  {
    forall a: SocketAddress, port: Port | write == read
      ensures Htons(Field(WithField(a, write, Htons(port)), read)) == port
    {
      FieldReadBack(a, write, Htons(port));
      SwapTwice(port);
    }
    if write != read {
      // 257 is the same in both byte orders and has no zero byte; the zero address keeps one.
      var b := WithField(ZERO_ADDRESS, write, Htons(257));
      assert b[read] == 0 || b[read + 1] == 0;
      assert Htons(Field(b, read)) != 257;
    }
  }
}
