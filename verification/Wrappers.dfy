/** Result and option types shared by every module. */
module Wrappers {

  datatype Option<+T> = None | Some(value: T)

  /** `Status` of the C++ side: `Ok`, or an error whose message is not modelled. */
  datatype Status = Ok | InternalError

  newtype byte = x: int | 0 <= x < 0x100

  type Bytes = seq<byte>
}
