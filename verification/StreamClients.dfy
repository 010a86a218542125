/** The sockets that connect: TCPSocket over a resolved list or one address, and StreamIPCSocket. */
module StreamClients {
  import opened Basics
  import opened SocketAddresses
  import opened SocketPaths
  import opened Hosts
  import opened OperatingSystem
  import opened Lifecycle
  import opened Connections

  class TCPSocket {
    const os: Os
    var socketDescriptor: int
    var hostname: Bytes
    var port: Port
    var protocolVersion: Port
    var serverAddress: SocketAddress

    constructor (os: Os, hostname: Bytes, port: Port, protocolVersion: Port)
      ensures this.os == os && State() == TcpState(INVALID, hostname, port, protocolVersion, ZERO_ADDRESS)
    {
      this.os := os;
      this.hostname := hostname;
      this.port := port;
      this.protocolVersion := protocolVersion;
      socketDescriptor, serverAddress := INVALID, ZERO_ADDRESS;
    }

    function State(): TcpState
      reads this
    {
      TcpState(socketDescriptor, hostname, port, protocolVersion, serverAddress)
    }

    /** The connect loop over the addresses the host name resolved to. */
    method ConstructSocket(addresses: seq<SocketAddress>, resolveCode: int, attempts: seq<Attempt>)
      returns (r: Result<()>)
      requires |attempts| == |addresses|
      modifies this, os
      ensures resolveCode != 0 ==>
        r == Failure(SocketException) && os.host == old(os.host) && State() == old(State())
      ensures resolveCode == 0 ==>
        Done(os.host, State(), r) == ConnectLoop(old(os.host), old(State()), addresses, attempts)
    {
      if resolveCode != 0 {
        return Failure(SocketException);
      }
      ghost var goal := ConnectLoop(os.host, State(), addresses, attempts);
      var i := 0;
      while i < |addresses|
        invariant 0 <= i <= |addresses|
        invariant goal == ConnectLoop(os.host, State(), addresses[i..], attempts[i..])
      {
        var address := addresses[i];
        assert addresses[i..][1..] == addresses[i + 1..] && attempts[i..][1..] == attempts[i + 1..];
        socketDescriptor := os.Socket(attempts[i].socketOk);
        if socketDescriptor != INVALID {
          if attempts[i].connectOk {
            serverAddress := address;
            protocolVersion := Family(address);
            return Success(());
          }
        }
        Close();
        i := i + 1;
      }
      r := Failure(SocketException);
    }

    /** The constructor for one address; `text` is the address as text, if it has one. */
    method ConstructFromAddress(address: SocketAddress, text: Option<Bytes>, t: Attempt) returns (r: Result<()>)
      requires serverAddress == ZERO_ADDRESS
      modifies this, os
      ensures Done(os.host, State(), r) == ConnectOne(old(os.host), address, text, t)
    {
      hostname := if text.Some? then text.value else [];
      port := GetPortNumber(address);
      protocolVersion := GetInternetProtocolVersion(address);
      socketDescriptor := os.Socket(t.socketOk);
      if socketDescriptor == INVALID {
        return Failure(SocketException);
      }
      if t.connectOk {
        serverAddress := address;
        protocolVersion := Family(address);
        return Success(());
      }
      r := Failure(SocketException);
    }

    method Close()
      modifies this, os
      ensures os.host == CloseSocket(old(os.host), old(socketDescriptor))
      ensures State() == old(State()).(fd := INVALID)
    {
      os.CloseFd(socketDescriptor);
      socketDescriptor := INVALID;
    }

    /** The copy constructor: both objects now hold one descriptor. */
    constructor Copy(socket: TCPSocket)
      ensures os == socket.os && State() == socket.State()
    {
      os := socket.os;
      socketDescriptor := socket.socketDescriptor;
      hostname := socket.hostname;
      port := socket.port;
      protocolVersion := socket.protocolVersion;
      serverAddress := socket.serverAddress;
    }
  }

  /**
   * A copy shares its original's descriptor. After either of the two is closed, the other still names
   * the descriptor, which is not open. Closing that one as well changes nothing here, because
   * descriptors are not issued twice; a system that issues the number again would close a stranger's.
   */
  method CloseCopied(socket: TCPSocket, closeCopy: bool) returns (copied: TCPSocket)
    requires INVALID !in socket.os.host.open
    modifies socket, socket.os
    ensures fresh(copied) && copied.os == socket.os
    ensures var (closed, other) := if closeCopy then (copied, socket) else (socket, copied);
      && closed.State() == old(socket.State()).(fd := INVALID) && other.State() == old(socket.State())
      && socket.os.host == CloseSocket(old(socket.os.host), old(socket.socketDescriptor))
      && other.socketDescriptor !in socket.os.host.open
      && CloseSocket(socket.os.host, other.socketDescriptor) == socket.os.host
  {
    copied := new TCPSocket.Copy(socket);
    if closeCopy {
      copied.Close();
    } else {
      socket.Close();
    }
    ghost var h := old(socket.socketDescriptor);
    assert socket.os.host.open - {h} == socket.os.host.open;
  }

  class StreamIPCSocket {
    const os: Os
    var socket: int
    var socketPath: Bytes

    constructor (os: Os, socketPath: Bytes)
      ensures this.os == os && this.socketPath == socketPath && socket == INVALID
    {
      this.os := os;
      this.socket := INVALID;
      this.socketPath := socketPath;
    }

    function State(): IpcState
      reads this
    {
      IpcState(socket, socketPath)
    }

    /** The connecting constructor's work. */
    method ConstructSocket(t: Attempt) returns (r: Result<()>)
      modifies this, os
      ensures Done(os.host, State(), r) == IpcConnect(old(os.host), old(socketPath), t)
    {
      socketPath := Truncate(socketPath);
      var address := SunPath(socketPath);
      socket := os.Socket(t.socketOk);
      if socket != INVALID {
        if t.connectOk && Route(os.host, address).Some? {
          return Success(());
        }
      }
      r := Failure(SocketException);
    }

    method Close()
      modifies this, os
      ensures os.host == CloseSocket(old(os.host), old(socket)) && socket == INVALID && socketPath == old(socketPath)
    {
      os.CloseFd(socket);
      socket := INVALID;
    }
  }
}
