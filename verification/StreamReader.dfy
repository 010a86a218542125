/**
 * The receive operations of ConnectionOrientedSocket as functions of the stream and the script.
 * The loops in ConnectionOrientedSocket.dfy are proved to compute these functions.
 */
module StreamReader {
  import opened Basics
  import opened StreamKernel

  /** The do/while of the buffer overload, with `got` already in the buffer. */
  function AmountLoop(s: Stream, n: nat, got: Bytes, script: seq<Choice>): (r: Outcome<Bytes>)
    requires |got| < n
    ensures r.Returned? ==> |r.rest| < |script| && got <= r.value && |r.value| <= n
    decreases |script|
  {
    match Recv(s, n - |got|, script)
    case Waiting(s1) => Waiting(s1)
    case Returned(receipt, s1, rest1) =>
      if receipt.code < 1 then Returned(got, s1, rest1) else
        var got1 := got + receipt.bytes;
        if |got1| == n then Returned(got1, s1, rest1) else
          match Poll(s1, rest1)
          case Waiting(s2) => Waiting(s2)
          case Returned(ready, s2, rest2) =>
            if ready > 0 then AmountLoop(s2, n, got1, rest2) else Returned(got1, s2, rest2)
  }

  /** One round of the loop, after its recv() returned. */
  lemma AmountRound(s: Stream, n: nat, got: Bytes, script: seq<Choice>, code: int, bytes: Bytes, s1: Stream,
                    rest1: seq<Choice>)
    requires |got| < n && Recv(s, n - |got|, script) == Returned(Chunk(code, bytes), s1, rest1)
    ensures var r := AmountLoop(s, n, got, script);
      if code < 1 then r == Returned(got, s1, rest1)
      else if |got + bytes| == n then r == Returned(got + bytes, s1, rest1)
      else r == match Poll(s1, rest1)
                case Waiting(s2) => Waiting(s2)
                case Returned(ready, s2, rest2) =>
                  if ready > 0 then AmountLoop(s2, n, got + bytes, rest2) else Returned(got + bytes, s2, rest2)
  {
  }

  function Amount(s: Stream, n: nat, script: seq<Choice>): (r: Outcome<Bytes>)
    ensures r.Returned? ==> |r.rest| <= |script| && |r.value| <= n
    ensures r.Returned? && n > 0 ==> |r.rest| < |script|
  {
    if n == 0 then Returned([], s, script) else AmountLoop(s, n, [], script)
  }

  function Get(s: Stream, script: seq<Choice>): (r: Outcome<Option<byte>>)
    ensures r.Returned? ==> |r.rest| < |script|
  {
    match Amount(s, 1, script)
    case Waiting(s1) => Waiting(s1)
    case Returned(bytes, s1, rest) => Returned(if bytes == [] then None else Some(bytes[0]), s1, rest)
  }

  /** The do/while of receiveToDelimiter, with `data` already collected. */
  function DelimiterLoop(s: Stream, d: byte, data: Bytes, script: seq<Choice>): Outcome<Bytes>
    decreases |script|
  {
    match Get(s, script)
    case Waiting(s1) => Waiting(s1)
    case Returned(None, s1, rest1) => Returned(data, s1, rest1)
    case Returned(Some(c), s1, rest1) =>
      if c == d then Returned(data, s1, rest1) else
        match Poll(s1, rest1)
        case Waiting(s2) => Waiting(s2)
        case Returned(ready, s2, rest2) =>
          if ready > 0 then DelimiterLoop(s2, d, data + [c], rest2) else Returned(data + [c], s2, rest2)
  }

  /** receiveToDelimiter past its test of the delimiter. */
  function ReadTo(s: Stream, d: byte, script: seq<Choice>): Outcome<Bytes> {
    match Poll(s, script)
    case Waiting(s1) => Waiting(s1)
    case Returned(ready, s1, rest) =>
      if ready > 0 then DelimiterLoop(s1, d, [], rest) else Returned([], s1, rest)
  }

  /** The while loop of receiveAll. The second poll's count is the size of the read. */
  function AllLoop(s: Stream, result: Bytes, hitEOF: bool, script: seq<Choice>): Outcome<Bytes>
    decreases |script|
  {
    match Poll(s, script)
    case Waiting(s1) => Waiting(s1)
    case Returned(ready, s1, rest1) =>
      if ready == 0 || hitEOF then Returned(result, s1, rest1) else
        match Poll(s1, rest1)
        case Waiting(s2) => Waiting(s2)
        case Returned(count, s2, rest2) =>
          match Amount(s2, count, rest2)
          case Waiting(s3) => Waiting(s3)
          case Returned(res, s3, rest3) =>
            if res != [] && res[0] == NUL
            then AllLoop(s3, result, true, rest3)
            else AllLoop(s3, result + res, hitEOF, rest3)
  }

  function ReadAll(s: Stream, script: seq<Choice>): Outcome<Bytes> {
    AllLoop(s, [], false, script)
  }

  /** A receive call as a program makes it. */
  datatype Call =
    | GetCall
    | AmountCall(n: nat)
    | DelimiterCall(d: byte)
    | AllCall

  /** A call's result as the bytes it hands to the caller; a refused delimiter hands over nothing. */
  function Perform(s: Stream, call: Call, script: seq<Choice>): Outcome<Bytes> {
    match call
    case GetCall =>
      (match Get(s, script)
       case Waiting(t) => Waiting(t)
       case Returned(c, t, rest) => Returned(if c.None? then [] else [c.value], t, rest))
    case AmountCall(n) => Amount(s, n, script)
    case DelimiterCall(d) => if d == NUL then Returned([], s, script) else ReadTo(s, d, script)
    case AllCall => ReadAll(s, script)
  }

  /** The calls that returned, the stream where the script ended, and the bytes of a call still running. */
  datatype History = History(returned: seq<Bytes>, taken: seq<Bytes>, running: Bytes, state: Stream, rest: seq<Choice>)

  /** Runs the calls one after the other for as long as the script lasts. */
  function Run(s: Stream, calls: seq<Call>, script: seq<Choice>): History
    decreases |calls|
  {
    if calls == [] then History([], [], [], s, script) else
      match Perform(s, calls[0], script)
      case Waiting(t) => History([], [], TakenBetween(s, t), t, [])
      case Returned(value, t, rest) =>
        var h := Run(t, calls[1..], rest);
        h.(returned := [value] + h.returned, taken := [TakenBetween(s, t)] + h.taken)
  }

  function Concat(parts: seq<Bytes>): Bytes {
    if parts == [] then [] else parts[0] + Concat(parts[1..])
  }
}
