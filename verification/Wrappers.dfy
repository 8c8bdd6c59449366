// A result that may be missing: None stands for a Solidity revert, a Go error or a thrown exception.
module Wrappers {
  datatype Option<+T> = None | Some(value: T)
}
