/** IPCServerSocket, field by field. */
module IPCServerSockets {
  import opened Basics
  import opened SocketPaths
  import opened Hosts
  import opened OperatingSystem
  import opened Lifecycle

  class IPCServerSocket {
    const os: Os
    var socket: int
    var socketPath: Bytes

    constructor (os: Os, socketPath: Bytes)
      ensures this.os == os && this.socketPath == socketPath
    {
      this.os := os;
      this.socket := INVALID;
      this.socketPath := socketPath;
    }

    function State(): ServerState
      reads this
    {
      ServerState(socket, socketPath)
    }

    /** The constructor's work; a failure here is an exception out of the constructor. */
    method ConstructSocket(override: bool, a: Answers) returns (r: Result<()>)
      modifies this, os
      ensures Done(os.host, State(), r) == Serve(old(os.host), old(socketPath), override, a)
    {
      socketPath := Truncate(socketPath);
      var address := SunPath(socketPath);
      if override {
        os.Remove(socketPath, a.overrideRemoveOk);
      }
      socket := os.Socket(a.socketOk);
      if socket == INVALID {
        return Failure(SocketException);
      }
      var bindResult := os.BindUnix(socket, address, a.bindOk);
      if bindResult == -1 {
        Close(a.closeRemoveOk);
        return Failure(BindingException);
      }
      if !a.listenOk {
        Close(a.closeRemoveOk);
        return Failure(SocketException);
      }
      r := Success(());
    }

    method Close(removeOk: bool)
      modifies this, os
      ensures (os.host, State()) == ServerClose(old(os.host), old(State()), removeOk)
    {
      os.CloseFd(socket);
      socket := INVALID;
      os.Remove(socketPath, removeOk);
    }
  }
}
