/** Fixed-width integers, error values and the read result shared by the whole model. */
module Basics {

  type byte = x: int | 0 <= x < 0x100
  type uint16 = x: int | 0 <= x < 0x1_0000
  type uint32 = x: int | 0 <= x < 0x1_0000_0000

  datatype Option<+T> = None | Some(value: T)

  /** The errors the codec tells apart. EOF and UnexpectedEOF follow Go's io package: UNSUBSCRIBE
      ends its topic list on the first and fails on the second. */
  datatype Error =
    | EOF
    | UnexpectedEOF
    | Malformed
    | TooLong
    | BadProperty(id: byte)
    | UnknownType(kind: byte)

  /** The outcome of something that produces a value or an error. */
  datatype Result<+T> = Ok(value: T) | Err(error: Error) {
    predicate IsFailure() { Err? }

    function PropagateFailure<U>(): Result<U>
      requires Err?
    {
      Err(error)
    }

    function Extract(): T
      requires Ok?
    {
      value
    }
  }

  /** The outcome of reading a value from the front of a byte sequence. */
  datatype Read<+T> = Done(value: T, rest: seq<byte>) | Fail(error: Error) {
    predicate IsFailure() { Fail? }

    function PropagateFailure<U>(): Read<U>
      requires Fail?
    {
      Fail(error)
    }

    function Extract(): (T, seq<byte>)
      requires Done?
    {
      (value, rest)
    }
  }

  /** The read result with the unread bytes forgotten. */
  function Value<T>(r: Read<T>): Result<T> {
    match r
    case Done(v, _) => Ok(v)
    case Fail(e) => Err(e)
  }

  lemma Associate<T>(a: seq<T>, b: seq<T>, c: seq<T>)
    ensures (a + b) + c == a + (b + c)
  {}

  lemma Cut<T>(a: seq<T>, b: seq<T>)
    ensures (a + b)[..|a|] == a && (a + b)[|a|..] == b
  {}

  function Min(a: int, b: int): (m: int)
    ensures m <= a && m <= b && (m == a || m == b)
  {
    if a <= b then a else b
  }
}
