/** Option type shared by the metrics and bootstrap modules. */
module Wrappers {

  /** A value that may be absent: Java's nullable reference or an unset protobuf field. */
  datatype Option<+T> = None | Some(value: T)
}
