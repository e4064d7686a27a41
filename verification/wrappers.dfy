/** The optional value used wherever the JavaScript code uses `null` or an
    index of -1 for "nothing here". */
module Wrappers {

  datatype Option<+T> = None | Some(value: T)
}
