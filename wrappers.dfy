/** The optional value used throughout the model: `None` stands for JavaScript's
    `null` or `undefined` wherever the source uses one of them for "absent". */
module Wrappers {

  datatype Option<+T> = None | Some(value: T)
}
