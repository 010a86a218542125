/** Values shared by every part of the model. */
module Basics {

  type byte = b: int | 0 <= b < 256

  /** The byte '\0'. */
  const NUL: byte := 0

  type Bytes = seq<byte>

  newtype int32 = x: int | -0x8000_0000 <= x < 0x8000_0000
  newtype uint32 = x: int | 0 <= x < 0x1_0000_0000

  const INT_MAX: uint32 := 0x7FFF_FFFF

  datatype Option<+T> = None | Some(value: T)

  /** The exception classes of src/socketexceptions, and the standard ones the code can run into. */
  datatype Exception = SocketException | BindingException | LengthError | BadOptionalAccess

  datatype Result<+T> = Success(value: T) | Failure(error: Exception)

  function Min(a: int, b: int): int {
    if a < b then a else b
  }

  /** The longest prefix of bytes without d. */
  function Before(bytes: Bytes, d: byte): (prefix: Bytes)
    ensures prefix <= bytes && d !in prefix
    ensures |prefix| < |bytes| ==> bytes[|prefix|] == d
  {
    if bytes == [] || bytes[0] == d then [] else [bytes[0]] + Before(bytes[1..], d)
  }

  /** The bytes a delimited read takes: the prefix before d, and d itself when it is there. */
  function Through(bytes: Bytes, d: byte): (taken: Bytes)
    ensures taken <= bytes
  {
    bytes[..Min(|Before(bytes, d)| + 1, |bytes|)]
  }

  /** Writes bytes into a buffer, as the kernel does; nothing else in the buffer changes. */
  method Overwrite(buffer: array<byte>, offset: nat, bytes: Bytes)
    requires offset + |bytes| <= buffer.Length
    modifies buffer
    ensures forall j :: 0 <= j < buffer.Length ==>
      buffer[j] == if offset <= j < offset + |bytes| then bytes[j - offset] else old(buffer[j])
  {
    var i := 0;
    while i < |bytes|
      invariant 0 <= i <= |bytes|
      invariant forall j :: 0 <= j < buffer.Length ==>
        buffer[j] == if offset <= j < offset + i then bytes[j - offset] else old(buffer[j])
    {
      buffer[offset + i] := bytes[i];
      i := i + 1;
    }
  }
}
