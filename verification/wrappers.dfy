/** The optional-value wrapper used across the model: a PHP strategy that
    returns `null` for "not mine" is modelled as `None`. */
module Wrappers {

  datatype Option<+T> = None | Some(value: T)
}
