/** Small failure-carrying datatypes shared by every module of the model. */
module Wrappers {

  datatype Option<T> = None | Some(value: T)

  /** The exceptions the engine raises, by kind. */
  datatype Error =
    | ArgumentOutOfRange   // a mask or a length outside its field
    | InvalidData          // a probe whose encoding does not decode back
    | Overflow             // more outputs than the 16-bit byte indices can address
    | NullReference        // a record pointer that was never set
    | Argument             // a BitArray copied into a buffer too small for it
    | IndexOutOfRange      // a write past the end of an array

  /** Result of an operation that either completes or raises one of the errors above. */
  datatype Outcome = Pass | Fail(error: Error)
}
