/** The optional value the controller uses for `UIImage?`, `CGPoint?` and the
    persisted key-value slot. */
module Wrappers {
  datatype Option<+T> = None | Some(value: T)
}
