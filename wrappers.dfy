/** The optional value used wherever the JavaScript code tests a possibly
    missing (`undefined`/`null`) property. */
module Wrappers {
  datatype Option<+T> = None | Some(value: T)
}
