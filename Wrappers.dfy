/** The optional value used for the timer's callback reference (a null pointer is `None`)
    and for the outcome of the count-flag poll. */
module Wrappers {

  datatype Option<+T> = None | Some(value: T)
}
