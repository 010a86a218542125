/** DatagramIPCSocket, field by field. */
module DatagramIPCSockets {
  import opened Basics
  import opened SocketPaths
  import opened Hosts
  import opened OperatingSystem
  import opened Lifecycle
  import SocketAddresses

  class DatagramIPCSocket {
    const os: Os
    var bound: bool
    var socketPath: Option<Bytes>
    var receiveSocket: int

    constructor (os: Os)
      ensures this.os == os && State() == NEW_DATAGRAM
    {
      this.os := os;
      bound, socketPath, receiveSocket := false, None, INVALID;
    }

    function State(): DatagramState
      reads this
    {
      DatagramState(receiveSocket, bound, socketPath)
    }

    method Bind(override: bool, socketPathOpt: Option<Bytes>, a: Answers) returns (r: Result<(int, Bytes)>)
      modifies this, os
      ensures Done(os.host, State(), r) == DatagramBind(old(os.host), old(State()), override, socketPathOpt, a)
    {
      if socketPathOpt.None? {
        return Failure(BindingException);
      }
      var path := Truncate(socketPathOpt.value);
      var address := SunPath(path);
      if override {
        os.Remove(path, a.overrideRemoveOk);
      }
      receiveSocket := os.Socket(a.socketOk);
      if receiveSocket == INVALID {
        return Failure(SocketException);
      }
      if bound {
        Close(a.closeRemoveOk);
      }
      var bindResult := os.BindUnix(receiveSocket, address, a.bindOk);
      bound := bindResult != -1;
      if !bound {
        return Success((bindResult, []));
      }
      socketPath := Some(path);
      match ValueOf(socketPath)
      case Failure(e) => return Failure(e);
      case Success(value) => return Success((bindResult, value));
    }

    method Close(removeOk: bool)
      modifies this, os
      ensures (os.host, State()) == DatagramClose(old(os.host), old(State()), removeOk)
    {
      os.CloseFd(receiveSocket);
      receiveSocket := INVALID;
      if bound && socketPath.Some? {
        os.Remove(socketPath.value, removeOk);
      }
      socketPath := None;
      bound := false;
    }

    method SendTo(path: Bytes, message: Bytes, socketOk: bool, sendOk: bool) returns (result: int)
      modifies os
      ensures (os.host, result) == DatagramSend(old(os.host), path, message, socketOk, sendOk)
    {
      var tempSocket := os.Socket(socketOk);
      if tempSocket == INVALID {
        return -2;
      }
      var sendPath := Truncate(path);
      result := os.SendTo(SunPath(sendPath), message, sendOk);
      os.CloseFd(tempSocket);
    }

    /** receiveFrom(char*, int): code and own path, or -1 and no path. */
    method ReceiveFromInto(buffer: array<byte>, receiveLength: nat, ok: bool) returns (r: Result<(int, Bytes)>)
      requires receiveLength <= buffer.Length
      modifies os, buffer
      ensures !bound || receiveLength == 0 ==>
        r == Success((-1, [])) && os.host == old(os.host) && buffer[..] == old(buffer[..])
      ensures bound && receiveLength > 0 ==>
        var (k, c, packet) := RecvFrom(old(os.host), receiveSocket, receiveLength, ok);
        && os.host == k && |packet.data| <= buffer.Length
        && buffer[..] == packet.data + old(buffer[|packet.data|..])
        && r == if socketPath.Some? then Success((c, socketPath.value)) else Failure(BadOptionalAccess)
    {
      if !bound || receiveLength == 0 {
        return Success((-1, []));
      }
      var flag, _ := os.ReceiveInto(receiveSocket, buffer, receiveLength, ok);
      match ValueOf(socketPath)
      case Failure(e) => return Failure(e);
      case Success(path) => return Success((flag, path));
    }

    method ReceiveFrom(receiveLength: int, ok: bool) returns (r: Result<Receipt>)
      modifies os
      ensures (os.host, r) == DatagramReceive(old(os.host), State(), receiveLength, ok)
    {
      if receiveLength < 0 {
        return Failure(LengthError);
      }
      var data := new byte[receiveLength](_ => NUL);
      assert data[..] == SocketAddresses.ZeroBytes(receiveLength);
      var result := ReceiveFromInto(data, receiveLength, ok);
      if result.Failure? {
        return Failure(result.error);
      }
      var code := result.value.0;
      var text := data[..];
      if 0 <= code && code < receiveLength {
        text := text[..code];
      }
      r := Success(Receipt(if |text| == 0 then None else Some(text), code, result.value.1));
    }
  }
}
