/** Small failure-carrying datatypes shared by every module of the model. */
module Wrappers {

  /** Something that may be absent: Ruby's `nil` where a value is optional. */
  datatype Option<+T> = None | Some(value: T)

  /** The outcome of evaluating a Ruby expression that may raise a
      StandardError; `message` is the exception's `message`. */
  datatype Eval<+T> = Value(value: T) | Raise(message: string)
}
