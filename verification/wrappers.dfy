/**
 A value that may be absent, and the answers of the container and provider functions (tiny_ret.h).
 */
module Wrappers {

  datatype Option<T> = None | Some(value: T)

  datatype TinyRet = RetOk | PositionInvalid | ItemExist | NotFound | ArgInvalid
}
