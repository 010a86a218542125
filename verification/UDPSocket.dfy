/** UDPSocket, field by field. */
module UDPSockets {
  import opened Basics
  import opened SocketAddresses
  import opened Hosts
  import opened OperatingSystem
  import opened Lifecycle

  class UDPSocket {
    const os: Os
    var bound: bool
    var receiveSocket: int
    var protocolVersion: Port
    var listeningPort: Option<Port>

    constructor (os: Os)
      ensures this.os == os && State() == NEW_UDP
    {
      this.os := os;
      bound, receiveSocket, protocolVersion, listeningPort := false, INVALID, ANY, None;
    }

    function State(): UdpState
      reads this
    {
      UdpState(receiveSocket, bound, protocolVersion, listeningPort)
    }

    /** bind to a host name: the first address it resolves to. */
    method BindName(resolved: seq<SocketAddress>, resolveCode: int, a: Answers)
      returns (r: Result<(int, SocketAddress)>)
      modifies this, os
      ensures resolveCode != 0 || resolved == [] ==>
        r == Failure(BindingException) && State() == old(State()) && os.host == old(os.host)
      ensures resolveCode == 0 && resolved != [] ==>
        Done(os.host, State(), r) == UdpBind(old(os.host), old(State()), Some(resolved[0]), a)
    {
      if resolveCode != 0 || resolved == [] {
        return Failure(BindingException);
      }
      r := Bind(Some(resolved[0]), a);
    }

    method Bind(addressOpt: Option<SocketAddress>, a: Answers) returns (r: Result<(int, SocketAddress)>)
      modifies this, os
      ensures Done(os.host, State(), r) == UdpBind(old(os.host), old(State()), addressOpt, a)
    {
      if addressOpt.None? {
        return Failure(BindingException);
      }
      var address := addressOpt.value;
      protocolVersion := Family(address);
      receiveSocket := os.Socket(a.socketOk);
      if receiveSocket == INVALID {
        return Failure(SocketException);
      }
      if bound {
        Close();
      }
      var bindResult := os.BindInet(receiveSocket, a.bindOk);
      bound := bindResult != -1;
      if !bound {
        return Success((bindResult, ZERO_ADDRESS));
      }
      var initialised := InitialiseListeningPortNumber(a.sockName);
      if initialised.Failure? {
        return Failure(initialised.error);
      }
      match ValueOf(listeningPort)
      case Failure(e) =>
        return Failure(e);
      case Success(port) =>
        address := WithPort(address, port);
        return Success((bindResult, address));
    }

    method InitialiseListeningPortNumber(sockName: Option<SocketAddress>) returns (r: Result<()>)
      modifies this, os
      ensures Done(os.host, State(), r) == InitialiseListeningPort(old(os.host), old(State()), sockName)
    {
      if sockName.None? {
        Close();
        return Failure(BindingException);
      }
      listeningPort := Some(GetPortNumber(sockName.value));
      r := Success(());
    }

    method Close()
      modifies this, os
      ensures (os.host, State()) == UdpClose(old(os.host), old(State()))
    {
      os.CloseFd(receiveSocket);
      receiveSocket := INVALID;
      bound := false;
      listeningPort := None;
    }

    /** sendTo an address, through a descriptor of its own. */
    method SendTo(delivery: Option<Delivery>, message: Bytes, socketOk: bool, sendOk: bool) returns (result: int)
      modifies os
      ensures (os.host, result) == UdpSend(old(os.host), delivery, message, socketOk, sendOk)
    {
      var tempSocket := os.Socket(socketOk);
      if tempSocket == INVALID {
        return -2;
      }
      result := os.SendUdp(delivery, message, sendOk);
      os.CloseFd(tempSocket);
    }

    /** sendTo a host name: the first address it resolves to, or 0 and no address. */
    method SendToName(resolved: seq<SocketAddress>, resolveCode: int, delivery: Option<Delivery>,
                      message: Bytes, socketOk: bool, sendOk: bool)
      returns (result: int, address: SocketAddress)
      modifies os
      ensures resolveCode != 0 || resolved == [] ==>
        result == 0 && address == ZERO_ADDRESS && os.host == old(os.host)
      ensures resolveCode == 0 && resolved != [] ==>
        && address == resolved[0]
        && (os.host, result) == UdpSend(old(os.host), delivery, message, socketOk, sendOk)
    {
      if resolved == [] || resolveCode != 0 {
        return 0, ZERO_ADDRESS;
      }
      address := resolved[0];
      result := SendTo(delivery, message, socketOk, sendOk);
    }

    /** receiveFrom(char*, int): refuses an unbound socket and an empty buffer. */
    method ReceiveFromInto(buffer: array<byte>, receiveLength: nat, ok: bool) returns (code: int, from: SocketAddress)
      requires receiveLength <= buffer.Length
      modifies os, buffer
      ensures !bound || receiveLength == 0 ==>
        code == -1 && from == ZERO_ADDRESS && os.host == old(os.host) && buffer[..] == old(buffer[..])
      ensures bound && receiveLength > 0 ==>
        var (k, c, packet) := RecvFrom(old(os.host), receiveSocket, receiveLength, ok);
        && os.host == k && code == c && from == packet.from && |packet.data| <= buffer.Length
        && buffer[..] == packet.data + old(buffer[|packet.data|..])
    {
      if !bound || receiveLength == 0 {
        return -1, ZERO_ADDRESS;
      }
      code, from := os.ReceiveInto(receiveSocket, buffer, receiveLength, ok);
    }

    /** receiveFrom(int): a string of that length, cut to the datagram. */
    method ReceiveFrom(receiveLength: int, ok: bool) returns (r: Result<Receipt>)
      modifies os
      ensures (os.host, r) == ReceiveString(old(os.host), receiveSocket, bound, receiveLength, ok)
    {
      if receiveLength < 0 {
        return Failure(LengthError);
      }
      var data := new byte[receiveLength](_ => NUL);
      assert data[..] == ZeroBytes(receiveLength);
      var code, from := ReceiveFromInto(data, receiveLength, ok);
      var text := data[..];
      if 0 <= code && code < receiveLength {
        text := text[..code];
      }
      r := Success(Receipt(if |text| == 0 then None else Some(text), code, from));
    }
  }
}
