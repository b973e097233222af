/** The optional value used for results that may be absent (`None` in Python,
    a missing cell in a pandas column). */
module Wrappers {

  datatype Option<+T> = None | Some(value: T)

}
