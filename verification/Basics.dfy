/** Types shared by every module: optional values, bytes and the fixed-width integers. */
module Basics {

  datatype Option<+T> = None | Some(value: T)

  /** Success or a thrown exception; usable with `:-`. */
  datatype Outcome = Pass | Threw {
    predicate IsFailure() { Threw? }
    function PropagateFailure(): Outcome
      requires Threw?
    {
      Threw
    }
  }

  /** A value or a thrown exception; usable with `:-`. */
  datatype Result<+T> = Ok(value: T) | Error {
    predicate IsFailure() { Error? }
    function PropagateFailure<U>(): Result<U>
      requires Error?
    {
      Error
    }
    function Extract(): T
      requires Ok?
    {
      value
    }
  }

  type byte = b: int | 0 <= b < 256
  type Bytes = seq<byte>

  type int32 = n: int | -0x8000_0000 <= n < 0x8000_0000
  type int64 = n: int | -0x8000_0000_0000_0000 <= n < 0x8000_0000_0000_0000

  /** One character stands for one byte. */
  predicate ByteString(s: string) {
    forall i :: 0 <= i < |s| ==> s[i] as int < 256
  }
}
