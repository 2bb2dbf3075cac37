/** Result values shared by the buffer, the stream and the read dispatch. */
module Results {

  /** An unsigned 8-bit value, as the byte storage of a buffer holds it. */
  type byte = x: int | 0 <= x < 256

  datatype Option<+T> = None | Some(value: T)

  /** The failures a read can report; decoding never panics. */
  datatype BitError =
    | NotEnoughData(requested: nat, bitsLeft: nat)
    | TooManyBits(requested: nat, max: nat)
    | IndexOutOfBounds(pos: nat, size: nat)
      /** The bytes whose decoding as UTF-8 failed, all of them. */
    | Utf8Error(bytes: seq<byte>)

  datatype Result<+T> = Ok(value: T) | Err(error: BitError)

  /** What a cursor operation yields: its result and where the cursor ends up. */
  datatype Step<+T> = Step(result: Result<T>, pos: nat)
}
