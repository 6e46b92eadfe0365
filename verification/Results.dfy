/** Result codes and fixed-width words shared by every driver model. */
module Results {
  /** The error part of `das_result_t`. */
  datatype Status = Ok | InvalidArgument | Unsupported | Timeout | NotReady | IoError

  /** A status that carries a value when it is `Ok`. */
  datatype Outcome<+T> = Value(value: T) | Failure(status: Status)

  const TWO_32 := 0x1_0000_0000

  type Byte = b: int | 0 <= b < 256
  type Word = w: int | 0 <= w < TWO_32
}
