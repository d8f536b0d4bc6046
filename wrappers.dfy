/** The optional-value type used throughout the model. `None` stands for an
    absent key or for a Python exception that nothing catches. */
module Wrappers {

  datatype Option<+T> = None | Some(value: T)

}
