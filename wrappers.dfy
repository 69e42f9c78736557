/** The optional value used wherever the script reads something that may be absent
    (a missing attribute, a missing storage key, a prompt that was cancelled). */
module Wrappers {

  datatype Option<+T> = None | Some(value: T)
}
