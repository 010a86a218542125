/**
 * The receive loops as the program runs them, over a buffer and the socket's stream.
 *
 * Every method returns None when the script ended while the call was still inside the kernel. Each
 * is proved to do exactly what the function of the same operation in StreamReader.dfy says, so the
 * theorems about those functions are theorems about these loops.
 */
module ConnectionOrientedSockets {
  import opened Basics
  import opened StreamKernel
  import StreamReader

  class ConnectionOrientedSocket {
    var stream: Stream
    var script: seq<Choice>
    var outgoing: Stream // the other direction, of which this socket is the sender

    constructor (stream: Stream, script: seq<Choice>, outgoing: Stream)
      ensures this.stream == stream && this.script == script && this.outgoing == outgoing
    {
      this.stream := stream;
      this.script := script;
      this.outgoing := outgoing;
    }

    /** send(): what the kernel accepts of the message, and how much that is. */
    method Send(message: Bytes, taken: nat) returns (count: int)
      modifies this`outgoing
      ensures (outgoing, count) == SendBytes(old(outgoing), message, taken)
    {
      var (s, c) := SendBytes(outgoing, message, taken);
      outgoing, count := s, c;
    }

    /** The outcome o is what the caller sees: a result and the socket as it is now. */
    ghost predicate Shows<T>(o: Outcome<T>, r: Option<T>)
      reads this
    {
      o == if r.Some? then Returned(r.value, stream, script) else Waiting(stream)
    }

    /** select() on the descriptor. */
    method PollSocket() returns (r: Option<nat>)
      modifies this
      ensures Shows(Poll(old(stream), old(script)), r)
    {
      match Poll(stream, script)
      case Waiting(s) =>
        stream, script, r := s, [], None;
      case Returned(value, s, rest) =>
        stream, script, r := s, rest, Some(value);
    }

    method Ready() returns (r: Option<bool>)
      modifies this
      ensures Shows(Poll(old(stream), old(script)), if r.None? then None else Some(if r.value then 1 else 0))
    {
      var result := PollSocket();
      r := if result.None? then None else Some(result.value > 0);
    }

    /** ::recv(socket, &buffer[offset], length): writes the bytes it takes off the queue. */
    method RecvInto(buffer: array<byte>, offset: int32, length: int32) returns (r: Option<int32>, ghost bytes: Bytes)
      requires 0 <= offset && 0 < length && offset as int + length as int <= buffer.Length
      modifies this, buffer
      ensures r.None? ==> Recv(old(stream), length as nat, old(script)) == Waiting(stream)
      ensures r.Some? ==>
        Recv(old(stream), length as nat, old(script)) == Returned(Chunk(r.value as int, bytes), stream, script)
      ensures r.Some? && r.value >= 1 ==> |bytes| == r.value as int <= length as int
      ensures r.Some? && r.value < 1 ==> bytes == []
      ensures r.Some? ==> forall j :: 0 <= j < buffer.Length ==>
        buffer[j] == if offset as int <= j < offset as int + |bytes| then bytes[j - offset as int] else old(buffer[j])
    {
      match Recv(stream, length as nat, script)
      case Waiting(s) =>
        stream, script, r, bytes := s, [], None, [];
      case Returned(receipt, s, rest) =>
        Overwrite(buffer, offset as int, receipt.bytes);
        stream, script, r, bytes := s, rest, Some(receipt.code as int32), receipt.bytes;
    }

    /**
     * The body of the buffer overload's loop: the new counter, and whether the loop goes on. The
     * arithmetic of the read size stays within an int.
     */
    method ReceiveRound(buffer: array<byte>, amountToReceive: uint32, counter: int32) returns (r: Option<(int32, bool)>)
      requires amountToReceive <= INT_MAX && 0 <= counter as int < amountToReceive as int <= buffer.Length
      modifies this, buffer
      ensures var n := amountToReceive as nat;
        var goal := StreamReader.AmountLoop(old(stream), n, old(buffer[..counter]), old(script));
        if r.None? then goal == Waiting(stream) else
          && var (counter', again) := r.value;
          && counter <= counter' && counter' as int <= amountToReceive as int
          && (forall j :: counter' as int <= j < buffer.Length ==> buffer[j] == old(buffer[j]))
          && if again
             then && counter' as int < amountToReceive as int && |script| < |old(script)|
                  && goal == StreamReader.AmountLoop(stream, amountToReceive as nat, buffer[..counter'], script)
             else goal == Returned(buffer[..counter'], stream, script)
    {
      var amountReceived, bytes := RecvInto(buffer, counter, (amountToReceive as int - counter as int) as int32);
      if amountReceived.None? {
        return None;
      }
      StreamReader.AmountRound(old(stream), amountToReceive as nat, old(buffer[..counter]), old(script),
                               amountReceived.value as int, bytes, stream, script);
      assert buffer[..counter] == old(buffer[..counter]);
      if amountReceived.value < 1 {
        return Some((counter, false));
      }
      var counter' := counter + amountReceived.value;
      assert buffer[..counter'] == old(buffer[..counter]) + bytes;
      if counter' as int >= amountToReceive as int {
        return Some((counter', false));
      }
      var ready := Ready();
      r := if ready.None? then None else Some((counter', ready.value));
    }

    /**
     * receiveAmount(char*, unsigned int): fills the buffer from its start. It writes exactly the
     * bytes it takes, in order, and leaves the rest of the buffer as it was.
     */
    method ReceiveAmountInto(buffer: array<byte>, amountToReceive: uint32) returns (r: Option<int32>)
      requires amountToReceive <= INT_MAX && amountToReceive as int <= buffer.Length
      modifies this, buffer
      ensures r.Some? ==>
        && 0 <= r.value as int <= amountToReceive as int
        && forall j :: r.value as int <= j < buffer.Length ==> buffer[j] == old(buffer[j])
      ensures Shows(StreamReader.Amount(old(stream), amountToReceive as nat, old(script)),
                    if r.None? then None else Some(buffer[..r.value]))
    {
      var counter: int32 := 0;
      if amountToReceive == 0 {
        return Some(counter);
      }
      ghost var goal := StreamReader.AmountLoop(stream, amountToReceive as nat, [], script);
      var again := true;
      while again
        invariant 0 <= counter as int <= amountToReceive as int
        invariant forall j :: counter as int <= j < buffer.Length ==> buffer[j] == old(buffer[j])
        invariant again ==>
          && counter as int < amountToReceive as int
          && goal == StreamReader.AmountLoop(stream, amountToReceive as nat, buffer[..counter], script)
        invariant !again ==> goal == Returned(buffer[..counter], stream, script)
        decreases again, |script|
      {
        var round := ReceiveRound(buffer, amountToReceive, counter);
        if round.None? {
          return None;
        }
        counter, again := round.value.0, round.value.1;
      }
      r := Some(counter);
    }

    /** receiveAmount(unsigned int): a fresh string of that size, cut to what was received. */
    method ReceiveAmount(amountToReceive: uint32) returns (r: Option<Bytes>)
      requires amountToReceive <= INT_MAX
      modifies this
      ensures Shows(StreamReader.Amount(old(stream), amountToReceive as nat, old(script)), r)
    {
      var data := new byte[amountToReceive](_ => NUL);
      var amountReceived := ReceiveAmountInto(data, amountToReceive);
      r := if amountReceived.None? then None else Some(data[..amountReceived.value]);
    }

    method Get() returns (r: Option<Option<byte>>)
      modifies this
      ensures Shows(StreamReader.Get(old(stream), old(script)), r)
    {
      var received := ReceiveAmount(1);
      if received.None? {
        return None;
      }
      if received.value == [] {
        return Some(None);
      }
      r := Some(Some(received.value[0]));
    }

    /** receiveToDelimiter: refuses NUL before touching the socket. */
    method ReceiveToDelimiter(delimiter: byte) returns (r: Option<Result<Bytes>>)
      modifies this
      ensures delimiter == NUL ==>
        r == Some(Failure(SocketException)) && stream == old(stream) && script == old(script)
      ensures delimiter != NUL ==>
        && (r.Some? ==> r.value.Success?)
        && Shows(StreamReader.ReadTo(old(stream), delimiter, old(script)),
                 if r.None? then None else Some(r.value.value))
    {
      if delimiter == NUL {
        return Some(Failure(SocketException));
      }
      var data: Bytes := [];
      var ready := Ready();
      if ready.None? {
        return None;
      }
      if !ready.value {
        return Some(Success(data));
      }
      ghost var goal := StreamReader.DelimiterLoop(stream, delimiter, [], script);
      var again := true;
      while again
        invariant again ==> goal == StreamReader.DelimiterLoop(stream, delimiter, data, script)
        invariant !again ==> goal == Returned(data, stream, script)
        decreases again, |script|
      {
        var character := Get();
        if character.None? {
          return None;
        }
        if character.value.Some? && character.value.value != delimiter {
          data := data + [character.value.value];
        }
        again := character.value.Some? && character.value.value != delimiter;
        if again {
          ready := Ready();
          if ready.None? {
            return None;
          }
          again := ready.value;
        }
      }
      r := Some(Success(data));
    }

    /** receiveAll: one byte at a time, because the count of a poll is the size it reads. */
    method ReceiveAll() returns (r: Option<Bytes>)
      modifies this
      ensures Shows(StreamReader.ReadAll(old(stream), old(script)), r)
    {
      var result: Bytes := [];
      var hitEOF := false;
      // The loop's guard polls before it looks at hitEOF; `polled` is the socket before that poll.
      ghost var goal := StreamReader.ReadAll(stream, script);
      ghost var polled, polledScript := stream, script;
      var ready := Ready();
      if ready.None? {
        return None;
      }
      while ready.value && !hitEOF
        invariant ready.Some?
        invariant Poll(polled, polledScript) == Returned(if ready.value then 1 else 0, stream, script)
        invariant goal == StreamReader.AllLoop(polled, result, hitEOF, polledScript)
        decreases |script|
      {
        var count := PollSocket();
        if count.None? {
          return None;
        }
        var res := ReceiveAmount(count.value as uint32);
        if res.None? {
          return None;
        }
        if res.value != [] && res.value[0] == NUL {
          hitEOF := true;
        } else {
          result := result + res.value;
        }
        polled, polledScript := stream, script;
        ready := Ready();
        if ready.None? {
          return None;
        }
      }
      r := Some(result);
    }
  }
}
