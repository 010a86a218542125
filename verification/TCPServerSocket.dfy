/** TCPServerSocket, field by field. */
module TCPServerSockets {
  import opened Basics
  import opened SocketAddresses
  import opened Hosts
  import opened OperatingSystem
  import opened Lifecycle
  import opened Connections

  class TCPServerSocket {
    const os: Os
    var port: Port
    var protocolVersion: Port
    var serverAddress: SocketAddress
    var socketDescriptor: int

    constructor (os: Os, port: Port, protocolVersion: Port)
      ensures this.os == os && this.port == port && this.protocolVersion == protocolVersion
      ensures serverAddress == ZERO_ADDRESS && socketDescriptor == INVALID
    {
      this.os := os;
      this.port := port;
      this.protocolVersion := protocolVersion;
      serverAddress, socketDescriptor := ZERO_ADDRESS, INVALID;
    }

    function State(): TcpServerState
      reads this
    {
      TcpServerState(port, protocolVersion, serverAddress, socketDescriptor)
    }

    /** The constructor's work; a failure here is an exception out of the constructor. */
    method ConstructSocket(a: TcpAnswers) returns (r: Result<()>)
      modifies this, os
      ensures Done(os.host, State(), r) == TcpServe(old(os.host), old(State()), a)
    {
      if a.resolveCode != 0 || a.resolved == [] {
        return Failure(SocketException);
      }
      var address := a.resolved[0];
      protocolVersion := Family(address);
      serverAddress := address;
      socketDescriptor := os.Socket(a.socketOk);
      if socketDescriptor == INVALID {
        return Failure(SocketException);
      }
      if !a.optionOk {
        return Failure(SocketException);
      }
      var bindResult := os.BindInet(socketDescriptor, a.bindOk);
      if bindResult == -1 {
        Close();
        return Failure(BindingException);
      }
      if port == 0 {
        var initialised := InitialisePortNumber(a.sockName);
        if initialised.Failure? {
          return Failure(initialised.error);
        }
        serverAddress := WithPort(serverAddress, port);
      }
      if !a.listenOk {
        Close();
        return Failure(SocketException);
      }
      r := Success(());
    }

    method InitialisePortNumber(sockName: Option<SocketAddress>) returns (r: Result<()>)
      modifies this, os
      ensures Done(os.host, State(), r) == InitialisePort(old(os.host), old(State()), sockName)
    {
      if sockName.None? {
        Close();
        return Failure(BindingException);
      }
      port := GetPortNumber(sockName.value);
      r := Success(());
    }

    method Close()
      modifies this, os
      ensures (os.host, State()) == TcpServerClose(old(os.host), old(State()))
    {
      os.CloseFd(socketDescriptor);
      socketDescriptor := INVALID;
    }
  }
}
